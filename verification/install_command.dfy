/** The `command` chain of lib/install/command.js as a driver: the record is
    prepared, the eight wrapped tasks are folded over it in order, and the
    run ends on one of its exit paths (success, cancellation, or the
    `catch` of a rejected task), after which the record is saved.

    The user may press the panel's Cancel button between any two wrapped
    tasks (the `cancelAt` boundary of the `World`); a press at boundary 8
    comes after the last task and before `notifyUser`. The button is live
    until the panel is destroyed, so a canceled run can be pressed again
    while `cleanupIfCanceled` waits for the removal of the virtualenv
    directory (`cancelDuringCleanup`). */
module InstallCommand {
  import opened Base
  import opened InstallState
  import opened InstallSteps

  /** The panel's `handleCancel`: sets `canceled`, and exists only while the
      panel does. */
  function PressCancel(s: State, cancelAt: Option<nat>, i: nat): (r: State)
    ensures r.canceled <==> s.canceled || (cancelAt == Some(i) && s.hasView)
    ensures r == s.(canceled := r.canceled)
  {
    if cancelAt == Some(i) && s.hasView then s.(canceled := true) else s
  }

  /** A task result with `e` in front of its effects. */
  function Prepend(e: seq<Effect>, r: TaskResult): (r': TaskResult)
    ensures r'.effects == e + r.effects
    ensures r'.Done? == r.Done? && r'.Rejected? == r.Rejected? && r'.Hangs? == r.Hangs?
    ensures r.Done? ==> r'.state == r.state
  {
    match r
    case Done(u, e2) => Done(u, e + e2)
    case Rejected(e2) => Rejected(e + e2)
    case Hangs(e2) => Hangs(e + e2)
  }

  /** The wrapped tasks from position `i` of `Pipeline` on, each fed the
      state its predecessor resolved with; a rejection or a hang ends the
      fold. The effects are those of the tasks that ran. */
  function RunFrom(s: State, i: nat, cancelAt: Option<nat>, task: Runner): (r: TaskResult)
    requires i <= |Pipeline| && s.total > 0 && WellBehaved(task)
    decreases |Pipeline| - i
  {
    var s1 := PressCancel(s, cancelAt, i);
    if i == |Pipeline| then Done(s1, [])
    else
      var r1 := Wrap(Pipeline[i], s1, task);
      if r1.Done? then
        assert r1.state.total > 0 by {
          if !s1.canceled {
            var t := s1.(step := s1.step + 1);
            assert TaskBehaves(t, task(Pipeline[i], t));
          }
        }
        Prepend(r1.effects, RunFrom(r1.state, i + 1, cancelAt, task))
      else r1
  }

  /** The tasks before the first wrapped one: restore the record, decide on
      the virtualenv and on package work, open the panel if needed.
      (`ensureThatCacheDirectoryExists` leaves the record alone.) */
  function Prepare(stored: Stored, builtin: bool, binDirMissing: bool, h: Host): (r: State)
    ensures r.step == 0 && r.total == ProgressSteps
    ensures r.restored <==> stored.Record?
    ensures r.canceled <==> stored.Record? && stored.saved.canceled
    ensures r.envShouldBeCreated <==> builtin && binDirMissing
    ensures r.packagesToRemove == PackagesToRemove(h)
    ensures r.packagesToInstall == PackagesToInstall(h)
    ensures r.packagesToUpgrade == PackagesToUpgrade(h)
    ensures r.hasView <==> !r.restored || r.envShouldBeCreated || r.packageManagementIsNecessary
  {
    var s := InitializeState(stored);
    var s1 := CheckIfVirtualenvShouldBeCreated(s, builtin, binDirMissing);
    var s2 := CheckIfPackageManagementIsNecessary(s1, h);
    InitializeView(s2)
  }

  /** `notifyUser`: the reload prompt after a run that was not canceled and
      had a reason to show its panel. */
  function NotifyUser(s: State): (r: seq<Effect>)
    ensures ReloadPrompt in r <==> !s.canceled && ViewShouldBeDisplayed(s)
    ensures |r| <= 1
  {
    if !s.canceled && ViewShouldBeDisplayed(s) then [ReloadPrompt] else []
  }

  /** What the chain carries after `notifyUser` or after the `catch`:
      a record, or `undefined` once the `catch` has run. */
  datatype Carried = Carried(value: Option<State>, effects: seq<Effect>)

  /** The `catch`: `cleanup()` removes the virtualenv directory and
      resolves with no value, so the record is lost. */
  function CatchRejection(effects: seq<Effect>): (r: Carried)
    ensures r.value.None?
    ensures r.effects == effects + [RemoveEnvDir]
  {
    Carried(None, effects + [RemoveEnvDir])
  }

  /** `cleanupIfCanceled`: a canceled run loses its `canceled` flag and
      waits for the removal of the virtualenv directory; a press of the
      panel's Cancel button during that wait (`pressed`) sets the flag
      again. Anything else, `undefined` included, passes through at once. */
  function CleanupIfCanceled(c: Carried, pressed: bool): (r: Carried)
    ensures c.value.None? ==> r == c
    ensures c.value.Some? ==>
      var s := c.value.value;
      r.value == Some(s.(canceled := s.canceled && pressed && s.hasView))
    ensures c.value.Some? ==>
      r.effects == c.effects + (if c.value.value.canceled then [RemoveEnvDir] else [])
  {
    match c.value
    case Some(s) =>
      if s.canceled then Carried(Some(s.(canceled := pressed && s.hasView)), c.effects + [RemoveEnvDir])
      else c
    case None => c
  }

  /** The outcome of a whole command: it saved something and stopped, or
      it never got past the python loop. */
  datatype CommandResult = Finished(effects: seq<Effect>, stored: Stored) | Stalled(effects: seq<Effect>)

  /** `destroyViewAndSaveState`: the panel is destroyed when there is one,
      and the record (without its view) is saved. `JSON.stringify` of
      `undefined` is `undefined`, which `setItem` stores as the text
      "undefined". */
  function DestroyViewAndSaveState(c: Carried): (r: CommandResult)
    ensures r.Finished?
    ensures c.value.None? ==> r == Finished(c.effects, UndefinedText)
    ensures c.value.Some? ==> r.stored == Record(c.value.value.(hasView := false))
    ensures c.value.Some? ==>
      r.effects == c.effects + (if c.value.value.hasView then [DestroyPanel] else [])
  {
    match c.value
    case Some(s) => Finished(c.effects + (if s.hasView then [DestroyPanel] else []), Record(s.(hasView := false)))
    case None => Finished(c.effects, UndefinedText)
  }

  /** The end of the chain, from what the fold of the tasks produced;
      `pressed` is a press of Cancel during the clean-up of a canceled run. */
  function Finish(run: TaskResult, pressed: bool): (r: CommandResult)
    ensures run.Hangs? <==> r.Stalled?
    ensures run.Rejected? ==> r == Finished(run.effects + [RemoveEnvDir], UndefinedText)
    ensures run.Done? ==> r.Finished? && r.stored.Record?
    ensures run.Done? ==>
      var t := run.state;
      r.stored.saved == t.(canceled := t.canceled && pressed && t.hasView, hasView := false)
  {
    match run
    case Hangs(e) => Stalled(e)
    case Rejected(e) => DestroyViewAndSaveState(CleanupIfCanceled(CatchRejection(e), pressed))
    case Done(t, e) => DestroyViewAndSaveState(CleanupIfCanceled(Carried(Some(t), e + NotifyUser(t)), pressed))
  }

  /** The fold of the wrapped tasks over the prepared record. */
  function Run(stored: Stored, builtin: bool, binDirMissing: bool, h: Host, w: World): TaskResult
  {
    TasksWellBehaved(w, DependencyNames(h.deps));
    RunFrom(Prepare(stored, builtin, binDirMissing, h), 0, w.cancelAt, TaskOf(w, DependencyNames(h.deps)))
  }

  /** The whole `command`: `deps` of the host are also the packages that
      `activateInactiveDependencies` looks at. */
  function Command(stored: Stored, builtin: bool, binDirMissing: bool, h: Host, w: World): CommandResult
  {
    Finish(Run(stored, builtin, binDirMissing, h, w), w.cancelDuringCleanup)
  }

  /** Every effect of `effects` satisfies `p`. */
  predicate Every(effects: seq<Effect>, p: Effect -> bool)
  {
    forall k :: 0 <= k < |effects| ==> p(effects[k])
  }

  lemma EveryAppend(a: seq<Effect>, b: seq<Effect>, p: Effect -> bool)
    ensures Every(a + b, p) <==> Every(a, p) && Every(b, p)
  {
    if Every(a, p) && Every(b, p) {
      forall k | 0 <= k < |a + b|
        ensures p((a + b)[k])
      {
        if k >= |a| {
          assert (a + b)[k] == b[k - |a|];
        } else {
          assert (a + b)[k] == a[k];
        }
      }
    }
    if Every(a + b, p) {
      forall k | 0 <= k < |a|
        ensures p(a[k])
      {
        assert (a + b)[k] == a[k];
      }
      forall k | 0 <= k < |b|
        ensures p(b[k])
      {
        assert (a + b)[|a| + k] == b[k];
      }
    }
  }

  /** An effect of the fold: a progress report or an effect of a task. */
  predicate RunEffect(e: Effect)
  {
    e.Progress? || TaskEffect(e)
  }

  predicate IsProgress(e: Effect)
  {
    e.Progress?
  }

  predicate NotApm(e: Effect)
  {
    !e.Apm?
  }

  lemma ProgressIsNotApm(e: seq<Effect>)
    requires Every(e, IsProgress)
    ensures Every(e, NotApm)
  {
  }

  /** What one wrapped task of the fold does to the record and which
      effects it may have. */
  lemma WrapFrame(kind: StepKind, s1: State, task: Runner)
    requires s1.total > 0 && WellBehaved(task)
    ensures var r1 := Wrap(kind, s1, task);
      && Every(r1.effects, RunEffect)
      && (r1.Done? ==> r1.state.step == s1.step + 1 && SameFlags(s1, r1.state) && r1.state.total > 0)
  {
    var t := s1.(step := s1.step + 1);
    var r1 := Wrap(kind, s1, task);
    assert Every(Shown(s1), RunEffect);
    if s1.canceled {
      assert r1 == Done(t, Shown(s1));
    } else {
      var e := task(kind, t).effects;
      assert TaskBehaves(t, task(kind, t));
      assert Every(e, RunEffect);
      EveryAppend(Shown(s1), e, RunEffect);
    }
  }

  /** One step of the fold: it goes on from the state a resolved task
      leaves, and stops with a task that rejects or hangs. */
  lemma RunStep(s: State, i: nat, cancelAt: Option<nat>, task: Runner)
    requires i < |Pipeline| && s.total > 0 && WellBehaved(task)
    ensures var s1 := PressCancel(s, cancelAt, i);
      var r1 := Wrap(Pipeline[i], s1, task);
      && s1.total > 0
      && (r1.Done? ==> r1.state.total > 0 && RunFrom(s, i, cancelAt, task) == Prepend(r1.effects, RunFrom(r1.state, i + 1, cancelAt, task)))
      && (!r1.Done? ==> RunFrom(s, i, cancelAt, task) == r1)
  {
    WrapFrame(Pipeline[i], PressCancel(s, cancelAt, i), task);
  }

  /** A fold result `r` from `s` that resolves has counted `n` more steps
      and kept the flags decided before the first task. */
  predicate Counted(r: TaskResult, s: State, n: nat)
  {
    r.Done? ==> r.state.step == s.step + n && SameFlags(s, r.state)
  }

  lemma RunCountsStep(s: State, i: nat, cancelAt: Option<nat>, task: Runner)
    requires i < |Pipeline| && s.total > 0 && WellBehaved(task)
    ensures var r1 := Wrap(Pipeline[i], PressCancel(s, cancelAt, i), task);
      && (!r1.Done? ==> Counted(RunFrom(s, i, cancelAt, task), s, |Pipeline| - i))
      && (r1.Done? ==>
            && r1.state.total > 0
            && (Counted(RunFrom(r1.state, i + 1, cancelAt, task), r1.state, |Pipeline| - (i + 1)) ==>
                  Counted(RunFrom(s, i, cancelAt, task), s, |Pipeline| - i)))
  {
    var s1 := PressCancel(s, cancelAt, i);
    RunStep(s, i, cancelAt, task);
    WrapFrame(Pipeline[i], s1, task);
  }

  /** Every wrapped task counts one step, run or skipped: a fold that gets to
      the end has counted all remaining positions of `Pipeline`, and it left
      the flags decided before the first task alone. */
  lemma {:induction false} RunCountsSteps(s: State, i: nat, cancelAt: Option<nat>, task: Runner)
    requires i <= |Pipeline| && s.total > 0 && WellBehaved(task)
    ensures Counted(RunFrom(s, i, cancelAt, task), s, |Pipeline| - i)
    decreases |Pipeline| - i
  {
    if i < |Pipeline| {
      RunCountsStep(s, i, cancelAt, task);
      var r1 := Wrap(Pipeline[i], PressCancel(s, cancelAt, i), task);
      if r1.Done? {
        RunCountsSteps(r1.state, i + 1, cancelAt, task);
      }
    }
  }

  lemma RunEffectsStep(s: State, i: nat, cancelAt: Option<nat>, task: Runner)
    requires i < |Pipeline| && s.total > 0 && WellBehaved(task)
    ensures var r1 := Wrap(Pipeline[i], PressCancel(s, cancelAt, i), task);
      && (!r1.Done? ==> Every(RunFrom(s, i, cancelAt, task).effects, RunEffect))
      && (r1.Done? ==>
            && r1.state.total > 0
            && (Every(RunFrom(r1.state, i + 1, cancelAt, task).effects, RunEffect) ==>
                  Every(RunFrom(s, i, cancelAt, task).effects, RunEffect)))
  {
    var s1 := PressCancel(s, cancelAt, i);
    RunStep(s, i, cancelAt, task);
    WrapFrame(Pipeline[i], s1, task);
    var r1 := Wrap(Pipeline[i], s1, task);
    if r1.Done? {
      EveryAppend(r1.effects, RunFrom(r1.state, i + 1, cancelAt, task).effects, RunEffect);
    }
  }

  /** The fold shows progress and runs tasks, and does nothing else: the
      reload prompt, the clean-up and the panel's destruction come after it. */
  lemma {:induction false} RunEffectsOnly(s: State, i: nat, cancelAt: Option<nat>, task: Runner)
    requires i <= |Pipeline| && s.total > 0 && WellBehaved(task)
    ensures Every(RunFrom(s, i, cancelAt, task).effects, RunEffect)
    decreases |Pipeline| - i
  {
    if i < |Pipeline| {
      RunEffectsStep(s, i, cancelAt, task);
      var r1 := Wrap(Pipeline[i], PressCancel(s, cancelAt, i), task);
      if r1.Done? {
        RunEffectsOnly(r1.state, i + 1, cancelAt, task);
      }
    }
  }

  /** The progress percentages among `effects`, in order. */
  function ProgressOf(effects: seq<Effect>): (r: seq<int>)
    ensures |r| <= |effects|
  {
    if |effects| == 0 then []
    else (if effects[0].Progress? then [effects[0].percent] else []) + ProgressOf(effects[1..])
  }

  lemma {:induction false} ProgressOfAppend(a: seq<Effect>, b: seq<Effect>)
    ensures ProgressOf(a + b) == ProgressOf(a) + ProgressOf(b)
  {
    if |a| > 0 {
      assert (a + b)[1..] == a[1..] + b;
      ProgressOfAppend(a[1..], b);
    } else {
      assert a + b == b;
    }
  }

  lemma {:induction false} ProgressOfTaskEffects(e: seq<Effect>)
    requires Every(e, TaskEffect)
    ensures ProgressOf(e) == []
  {
    if |e| > 0 {
      ProgressOfTaskEffects(e[1..]);
    }
  }

  /** `p` holds the percentages of the steps after `step`, in order. */
  predicate ShowsSteps(p: seq<int>, step: int, total: int)
    requires total > 0
  {
    forall k :: 0 <= k < |p| ==> p[k] == Percent(step + k + 1, total)
  }

  lemma ShowsStepsCons(p: seq<int>, step: int, total: int)
    requires total > 0 && ShowsSteps(p, step + 1, total)
    ensures ShowsSteps([Percent(step + 1, total)] + p, step, total)
  {
    var q := [Percent(step + 1, total)] + p;
    forall k | 0 < k < |q|
      ensures q[k] == Percent(step + k + 1, total)
    {
      assert q[k] == p[k - 1];
    }
  }

  /** One wrapped task shows its own percentage when there is a panel, and
      no other. */
  lemma WrapProgress(kind: StepKind, s: State, task: Runner)
    requires s.total > 0 && WellBehaved(task)
    ensures ProgressOf(Wrap(kind, s, task).effects) == if s.hasView then [Percent(s.step + 1, s.total)] else []
  {
    var t := s.(step := s.step + 1);
    assert ProgressOf(Shown(s)) == if s.hasView then [Percent(s.step + 1, s.total)] else [];
    if s.canceled {
      assert Wrap(kind, s, task) == Done(t, Shown(s));
    } else {
      var e := task(kind, t).effects;
      assert TaskBehaves(t, task(kind, t));
      ProgressOfAppend(Shown(s), e);
      ProgressOfTaskEffects(e);
    }
  }

  /** The result of the fold over `n` wrapped tasks from a record at
      `step` shows the percentages of the steps it counts, one per task, in
      order: all of them when it resolves, the first ones otherwise. */
  predicate ProgressFrom(r: TaskResult, step: int, total: int, n: nat)
    requires total > 0
  {
    var p := ProgressOf(r.effects);
    ShowsSteps(p, step, total) && |p| <= n && (r.Done? ==> |p| == n)
  }

  /** The percentages of one wrapped task followed by those of the rest of
      the fold. */
  lemma ProgressStep(e1: seq<Effect>, r2: TaskResult, step: int, total: int, n: nat)
    requires total > 0 && n > 0
    requires ProgressOf(e1) == [Percent(step + 1, total)]
    requires ProgressFrom(r2, step + 1, total, n - 1)
    ensures ProgressFrom(Prepend(e1, r2), step, total, n)
  {
    ProgressOfAppend(e1, r2.effects);
    ShowsStepsCons(ProgressOf(r2.effects), step, total);
  }

  /** One step of `RunProgress`: what the rest of the fold shows, after
      the wrapped task at position `i`, gives what the fold from `i` shows. */
  lemma RunProgressStep(s: State, i: nat, cancelAt: Option<nat>, task: Runner)
    requires i < |Pipeline| && s.total > 0 && s.hasView && WellBehaved(task)
    ensures var r1 := Wrap(Pipeline[i], PressCancel(s, cancelAt, i), task);
      && (!r1.Done? ==> ProgressFrom(RunFrom(s, i, cancelAt, task), s.step, s.total, |Pipeline| - i))
      && (r1.Done? ==>
            && r1.state.total > 0 && r1.state.hasView
            && (ProgressFrom(RunFrom(r1.state, i + 1, cancelAt, task), r1.state.step, r1.state.total, |Pipeline| - (i + 1)) ==>
                  ProgressFrom(RunFrom(s, i, cancelAt, task), s.step, s.total, |Pipeline| - i)))
  {
    var s1 := PressCancel(s, cancelAt, i);
    var r1 := Wrap(Pipeline[i], s1, task);
    RunStep(s, i, cancelAt, task);
    WrapFrame(Pipeline[i], s1, task);
    WrapProgress(Pipeline[i], s1, task);
    assert ProgressOf(r1.effects) == [Percent(s.step + 1, s.total)];
    if r1.Done? {
      var r2 := RunFrom(r1.state, i + 1, cancelAt, task);
      if ProgressFrom(r2, r1.state.step, r1.state.total, |Pipeline| - (i + 1)) {
        ProgressStep(r1.effects, r2, s.step, s.total, |Pipeline| - i);
      }
    } else {
      ProgressStopped(r1, s.step, s.total, |Pipeline| - i);
    }
  }

  /** A fold that stops at its first task shows that task's percentage only. */
  lemma ProgressStopped(r1: TaskResult, step: int, total: int, n: nat)
    requires total > 0 && n > 0 && !r1.Done?
    requires ProgressOf(r1.effects) == [Percent(step + 1, total)]
    ensures ProgressFrom(r1, step, total, n)
  {
  }

  /** With a panel, the fold shows the percentages of the steps it counts,
      one per wrapped task, in order: all of them when it gets to the end,
      the first ones when a task rejects or hangs. */
  lemma {:induction false} RunProgress(s: State, i: nat, cancelAt: Option<nat>, task: Runner)
    requires i <= |Pipeline| && s.total > 0 && s.hasView && WellBehaved(task)
    ensures ProgressFrom(RunFrom(s, i, cancelAt, task), s.step, s.total, |Pipeline| - i)
    decreases |Pipeline| - i
  {
    if i < |Pipeline| {
      RunProgressStep(s, i, cancelAt, task);
      var r1 := Wrap(Pipeline[i], PressCancel(s, cancelAt, i), task);
      if r1.Done? {
        RunProgress(r1.state, i + 1, cancelAt, task);
      }
    } else {
      assert RunFrom(s, i, cancelAt, task).effects == [];
    }
  }

  lemma NoPanelStep(s: State, i: nat, cancelAt: Option<nat>, task: Runner)
    requires i < |Pipeline| && s.total > 0 && !s.hasView && WellBehaved(task)
    ensures var r1 := Wrap(Pipeline[i], PressCancel(s, cancelAt, i), task);
      && (!r1.Done? ==> ProgressOf(RunFrom(s, i, cancelAt, task).effects) == [])
      && (r1.Done? ==>
            && r1.state.total > 0 && !r1.state.hasView
            && (ProgressOf(RunFrom(r1.state, i + 1, cancelAt, task).effects) == [] ==>
                  ProgressOf(RunFrom(s, i, cancelAt, task).effects) == []))
  {
    var s1 := PressCancel(s, cancelAt, i);
    RunStep(s, i, cancelAt, task);
    WrapFrame(Pipeline[i], s1, task);
    WrapProgress(Pipeline[i], s1, task);
    var r1 := Wrap(Pipeline[i], s1, task);
    if r1.Done? {
      ProgressOfAppend(r1.effects, RunFrom(r1.state, i + 1, cancelAt, task).effects);
    }
  }

  /** Without a panel the fold shows no progress. */
  lemma {:induction false} RunWithoutPanel(s: State, i: nat, cancelAt: Option<nat>, task: Runner)
    requires i <= |Pipeline| && s.total > 0 && !s.hasView && WellBehaved(task)
    ensures ProgressOf(RunFrom(s, i, cancelAt, task).effects) == []
    decreases |Pipeline| - i
  {
    if i < |Pipeline| {
      NoPanelStep(s, i, cancelAt, task);
      var r1 := Wrap(Pipeline[i], PressCancel(s, cancelAt, i), task);
      if r1.Done? {
        RunWithoutPanel(r1.state, i + 1, cancelAt, task);
      }
    } else {
      assert RunFrom(s, i, cancelAt, task).effects == [];
    }
  }

  /** The percentages a panel shows during a whole run. */
  const FullSchedule: seq<int> := [12, 25, 37, 50, 62, 75, 87, 100]

  /** The first percentages of a whole run are a prefix of `FullSchedule`:
      they ascend and stay within 1 to 100. */
  lemma FullSchedulePrefix(p: seq<int>)
    requires |p| <= |Pipeline| && ShowsSteps(p, 0, ProgressSteps)
    ensures p <= FullSchedule
    ensures |p| == |Pipeline| ==> p == FullSchedule
    ensures forall j, k :: 0 <= j < k < |p| ==> p[j] <= p[k]
    ensures forall k :: 0 <= k < |p| ==> 0 < p[k] <= 100
  {
    forall k | 0 <= k < |p|
      ensures p[k] == FullSchedule[k]
    {
      assert p[k] == Percent(k + 1, ProgressSteps);
    }
  }

  /** The prepared record of a command, with the tasks it runs, satisfies
      what the fold asks for. */
  lemma RunFromPrepared(stored: Stored, builtin: bool, binDirMissing: bool, h: Host, w: World)
    ensures var s := Prepare(stored, builtin, binDirMissing, h);
      var task := TaskOf(w, DependencyNames(h.deps));
      s.total > 0 && WellBehaved(task) &&
      Run(stored, builtin, binDirMissing, h, w) == RunFrom(s, 0, w.cancelAt, task)
  {
    TasksWellBehaved(w, DependencyNames(h.deps));
  }

  /** A fold over all of `Pipeline` from step 0 shows the percentages of
      `FullSchedule`, all of them when it resolves. */
  lemma FullProgress(r: TaskResult)
    requires ProgressFrom(r, 0, ProgressSteps, |Pipeline|)
    ensures var p := ProgressOf(r.effects);
      && p <= FullSchedule && (r.Done? ==> p == FullSchedule)
      && (forall j, k :: 0 <= j < k < |p| ==> p[j] <= p[k])
      && (forall k :: 0 <= k < |p| ==> 0 < p[k] <= 100)
  {
    FullSchedulePrefix(ProgressOf(r.effects));
  }

  /** From a prepared record, the panel's percentages are those of
      `FullSchedule` (all of them when every task resolves): they never
      decrease and never exceed 100. A run without a panel shows none. */
  lemma ChainProgress(stored: Stored, builtin: bool, binDirMissing: bool, h: Host, w: World)
    ensures var s := Prepare(stored, builtin, binDirMissing, h);
      var r := Run(stored, builtin, binDirMissing, h, w);
      var p := ProgressOf(r.effects);
      && (s.hasView ==> p <= FullSchedule && (r.Done? ==> p == FullSchedule))
      && (!s.hasView ==> p == [])
      && (forall j, k :: 0 <= j < k < |p| ==> p[j] <= p[k])
      && (forall k :: 0 <= k < |p| ==> 0 < p[k] <= 100)
  {
    var s := Prepare(stored, builtin, binDirMissing, h);
    var task := TaskOf(w, DependencyNames(h.deps));
    RunFromPrepared(stored, builtin, binDirMissing, h, w);
    if s.hasView {
      RunProgress(s, 0, w.cancelAt, task);
      FullProgress(RunFrom(s, 0, w.cancelAt, task));
    } else {
      RunWithoutPanel(s, 0, w.cancelAt, task);
    }
  }

  /** Pressing cancel twice at the same boundary is pressing it once, so a
      fold may start from the record as it is after the press. */
  lemma PressedFold(s: State, i: nat, cancelAt: Option<nat>, task: Runner)
    requires i <= |Pipeline| && s.total > 0 && WellBehaved(task)
    ensures var s1 := PressCancel(s, cancelAt, i);
      s1.total > 0 && RunFrom(s, i, cancelAt, task) == RunFrom(s1, i, cancelAt, task)
  {
    var s1 := PressCancel(s, cancelAt, i);
    assert PressCancel(s1, cancelAt, i) == s1;
  }

  /** A canceled record skips the wrapped task and only shows progress. */
  lemma CanceledWrap(kind: StepKind, s: State, task: Runner)
    requires s.total > 0 && s.canceled
    ensures Wrap(kind, s, task) == Done(s.(step := s.step + 1), Shown(s))
  {
  }

  /** A canceled fold skips its next task and shows its progress. */
  lemma CanceledStep(s: State, i: nat, cancelAt: Option<nat>, task: Runner)
    requires i < |Pipeline| && s.total > 0 && s.canceled && WellBehaved(task)
    ensures RunFrom(s, i, cancelAt, task) == Prepend(Shown(s), RunFrom(s.(step := s.step + 1), i + 1, cancelAt, task))
  {
    assert PressCancel(s, cancelAt, i) == s;
    CanceledWrap(Pipeline[i], s, task);
  }

  /** A fold result `r` from `s` resolves with `n` more steps counted and
      the record otherwise as it was. */
  predicate Skipped(r: TaskResult, s: State, n: nat)
  {
    r.Done? && r.state == s.(step := s.step + n)
  }

  lemma CanceledSkipStep(s: State, i: nat, cancelAt: Option<nat>, task: Runner)
    requires i < |Pipeline| && s.total > 0 && s.canceled && WellBehaved(task)
    ensures var t := s.(step := s.step + 1);
      Skipped(RunFrom(t, i + 1, cancelAt, task), t, |Pipeline| - (i + 1)) ==>
        Skipped(RunFrom(s, i, cancelAt, task), s, |Pipeline| - i)
  {
    var t := s.(step := s.step + 1);
    CanceledStep(s, i, cancelAt, task);
    assert t.(step := t.step + |Pipeline| - (i + 1)) == s.(step := s.step + |Pipeline| - i);
  }

  /** Once canceled, the fold runs no task: it counts the remaining steps
      and resolves with the record otherwise untouched. */
  lemma {:induction false} CanceledRunSkipsTasks(s: State, i: nat, cancelAt: Option<nat>, task: Runner)
    requires i <= |Pipeline| && s.total > 0 && s.canceled && WellBehaved(task)
    ensures Skipped(RunFrom(s, i, cancelAt, task), s, |Pipeline| - i)
    decreases |Pipeline| - i
  {
    if i < |Pipeline| {
      CanceledSkipStep(s, i, cancelAt, task);
      CanceledRunSkipsTasks(s.(step := s.step + 1), i + 1, cancelAt, task);
    } else {
      assert PressCancel(s, cancelAt, i) == s;
    }
  }

  lemma CanceledProgressStep(s: State, i: nat, cancelAt: Option<nat>, task: Runner)
    requires i < |Pipeline| && s.total > 0 && s.canceled && WellBehaved(task)
    ensures var t := s.(step := s.step + 1);
      Every(RunFrom(t, i + 1, cancelAt, task).effects, IsProgress) ==>
        Every(RunFrom(s, i, cancelAt, task).effects, IsProgress)
  {
    CanceledStep(s, i, cancelAt, task);
    EveryAppend(Shown(s), RunFrom(s.(step := s.step + 1), i + 1, cancelAt, task).effects, IsProgress);
  }

  /** Once canceled, the fold shows progress and nothing else. */
  lemma {:induction false} CanceledRunShowsProgressOnly(s: State, i: nat, cancelAt: Option<nat>, task: Runner)
    requires i <= |Pipeline| && s.total > 0 && s.canceled && WellBehaved(task)
    ensures Every(RunFrom(s, i, cancelAt, task).effects, IsProgress)
    decreases |Pipeline| - i
  {
    if i < |Pipeline| {
      CanceledProgressStep(s, i, cancelAt, task);
      CanceledRunShowsProgressOnly(s.(step := s.step + 1), i + 1, cancelAt, task);
    } else {
      assert PressCancel(s, cancelAt, i) == s;
    }
  }

  /** The exit paths, from what the fold produced. A rejection leads to
      the `catch`: the virtualenv directory is removed, the panel stays and
      the text "undefined" is saved. */
  lemma FinishRejected(run: TaskResult, pressed: bool)
    requires run.Rejected? && Every(run.effects, RunEffect)
    ensures var c := Finish(run, pressed);
      && c.Finished? && c.stored == UndefinedText
      && RemoveEnvDir in c.effects && DestroyPanel !in c.effects && ReloadPrompt !in c.effects
  {
    var c := Finish(run, pressed);
    EveryAppend(run.effects, [RemoveEnvDir], (e: Effect) => e != DestroyPanel && e != ReloadPrompt);
    assert c.effects[|run.effects|] == RemoveEnvDir;
  }

  /** A canceled run removes the virtualenv directory, offers no reload
      and closes the panel it had; the saved record is canceled again
      exactly when the user pressed Cancel on that panel during the removal. */
  lemma FinishCanceled(run: TaskResult, pressed: bool)
    requires run.Done? && run.state.canceled && Every(run.effects, RunEffect)
    ensures var c := Finish(run, pressed);
      && c.Finished? && c.stored.Record?
      && (c.stored.saved.canceled <==> pressed && run.state.hasView)
      && RemoveEnvDir in c.effects && ReloadPrompt !in c.effects
      && (DestroyPanel in c.effects <==> run.state.hasView)
  {
    var tail := [RemoveEnvDir] + (if run.state.hasView then [DestroyPanel] else []);
    var c := Finish(run, pressed);
    assert c.effects == run.effects + tail;
    assert c.effects[|run.effects|] == RemoveEnvDir;
    if run.state.hasView {
      assert c.effects[|run.effects| + 1] == DestroyPanel;
    } else {
      EveryAppend(run.effects, tail, (e: Effect) => e != DestroyPanel);
    }
    EveryAppend(run.effects, tail, (e: Effect) => e != ReloadPrompt);
  }

  /** A run that resolves uncanceled offers the reload and closes the panel
      exactly when it had a reason to show one, and removes nothing. */
  lemma FinishSucceeded(run: TaskResult, pressed: bool)
    requires run.Done? && !run.state.canceled && Every(run.effects, RunEffect)
    requires run.state.hasView <==> ViewShouldBeDisplayed(run.state)
    ensures var c := Finish(run, pressed);
      && c.Finished? && c.stored.Record? && !c.stored.saved.canceled
      && RemoveEnvDir !in c.effects
      && (DestroyPanel in c.effects <==> ViewShouldBeDisplayed(run.state))
      && (ReloadPrompt in c.effects <==> ViewShouldBeDisplayed(run.state))
  {
    var tail := NotifyUser(run.state) + (if run.state.hasView then [DestroyPanel] else []);
    var c := Finish(run, pressed);
    assert c.effects == run.effects + tail;
    if run.state.hasView {
      assert c.effects[|run.effects|] == ReloadPrompt;
      assert c.effects[|run.effects| + 1] == DestroyPanel;
      EveryAppend(run.effects, tail, (e: Effect) => e != RemoveEnvDir);
    } else {
      EveryAppend(run.effects, tail, (e: Effect) => e != RemoveEnvDir && e != DestroyPanel && e != ReloadPrompt);
    }
  }

  /** A command that gets to the end of its tasks saves a record that has
      counted every step and has no view; it is canceled exactly when the
      run was canceled with its panel shown and the user pressed Cancel
      again during the clean-up. */
  lemma SavedRecord(stored: Stored, builtin: bool, binDirMissing: bool, h: Host, w: World)
    ensures var c := Command(stored, builtin, binDirMissing, h, w);
      var run := Run(stored, builtin, binDirMissing, h, w);
      c.Finished? && c.stored.Record? ==>
        var t := c.stored.saved;
        && run.Done? && t.step == t.total == ProgressSteps && !t.hasView
        && (t.canceled <==> run.state.canceled && run.state.hasView && w.cancelDuringCleanup)
  {
    var s := Prepare(stored, builtin, binDirMissing, h);
    var run := Run(stored, builtin, binDirMissing, h, w);
    RunFromPrepared(stored, builtin, binDirMissing, h, w);
    RunCountsSteps(s, 0, w.cancelAt, TaskOf(w, DependencyNames(h.deps)));
    FinishSaved(run, s, w.cancelDuringCleanup);
  }

  /** What the exit paths save after a fold that counted every step from
      a prepared record. */
  lemma FinishSaved(run: TaskResult, s: State, pressed: bool)
    requires s.step == 0 && s.total == ProgressSteps && Counted(run, s, |Pipeline|)
    ensures var c := Finish(run, pressed);
      c.Finished? && c.stored.Record? ==>
        var t := c.stored.saved;
        && run.Done? && t.step == t.total == ProgressSteps && !t.hasView
        && (t.canceled <==> run.state.canceled && run.state.hasView && pressed)
  {
  }

  /** The error path: a rejected task leads to the `catch`, which removes the
      virtualenv directory; the panel stays, and the saved text "undefined"
      makes the next `initializeState` start afresh. */
  lemma ErrorPath(stored: Stored, builtin: bool, binDirMissing: bool, h: Host, w: World)
    requires Run(stored, builtin, binDirMissing, h, w).Rejected?
    ensures var c := Command(stored, builtin, binDirMissing, h, w);
      && c.Finished? && c.stored == UndefinedText
      && RemoveEnvDir in c.effects && DestroyPanel !in c.effects && ReloadPrompt !in c.effects
      && !InitializeState(c.stored).restored
  {
    var s := Prepare(stored, builtin, binDirMissing, h);
    RunFromPrepared(stored, builtin, binDirMissing, h, w);
    RunEffectsOnly(s, 0, w.cancelAt, TaskOf(w, DependencyNames(h.deps)));
    FinishRejected(Run(stored, builtin, binDirMissing, h, w), w.cancelDuringCleanup);
  }

  /** The cancellation path: a run canceled by the end of its tasks removes
      the virtualenv directory, offers no reload, closes the panel it had,
      and saves a record that is no longer canceled unless the user pressed
      Cancel again on that panel during the removal. */
  lemma CancelPath(stored: Stored, builtin: bool, binDirMissing: bool, h: Host, w: World)
    requires var run := Run(stored, builtin, binDirMissing, h, w);
      run.Done? && run.state.canceled
    ensures var s := Prepare(stored, builtin, binDirMissing, h);
      var c := Command(stored, builtin, binDirMissing, h, w);
      && c.Finished? && c.stored.Record?
      && (c.stored.saved.canceled <==> w.cancelDuringCleanup && s.hasView)
      && RemoveEnvDir in c.effects && ReloadPrompt !in c.effects
      && (DestroyPanel in c.effects <==> s.hasView)
  {
    var s := Prepare(stored, builtin, binDirMissing, h);
    var task := TaskOf(w, DependencyNames(h.deps));
    RunFromPrepared(stored, builtin, binDirMissing, h, w);
    RunCountsSteps(s, 0, w.cancelAt, task);
    RunEffectsOnly(s, 0, w.cancelAt, task);
    FinishCanceled(Run(stored, builtin, binDirMissing, h, w), w.cancelDuringCleanup);
  }

  /** The success path: the panel is closed exactly when the run had a
      reason to open it, and the reload prompt comes with it. */
  lemma SuccessPath(stored: Stored, builtin: bool, binDirMissing: bool, h: Host, w: World)
    requires var run := Run(stored, builtin, binDirMissing, h, w);
      run.Done? && !run.state.canceled
    ensures var s := Prepare(stored, builtin, binDirMissing, h);
      var c := Command(stored, builtin, binDirMissing, h, w);
      && c.Finished? && c.stored.Record?
      && RemoveEnvDir !in c.effects
      && (DestroyPanel in c.effects <==> ViewShouldBeDisplayed(s))
      && (ReloadPrompt in c.effects <==> ViewShouldBeDisplayed(s))
  {
    var s := Prepare(stored, builtin, binDirMissing, h);
    var task := TaskOf(w, DependencyNames(h.deps));
    RunFromPrepared(stored, builtin, binDirMissing, h, w);
    RunCountsSteps(s, 0, w.cancelAt, task);
    RunEffectsOnly(s, 0, w.cancelAt, task);
    FinishSucceeded(Run(stored, builtin, binDirMissing, h, w), w.cancelDuringCleanup);
  }

  /** A saved record comes back restored, with its package lists and flags;
      it comes back canceled only after a press of Cancel during the
      clean-up, so without one the tasks of the next run are not skipped. */
  lemma SaveRestoreRoundTrip(stored: Stored, builtin: bool, binDirMissing: bool, h: Host, w: World)
    requires var c := Command(stored, builtin, binDirMissing, h, w);
      c.Finished? && c.stored.Record?
    ensures var t := Command(stored, builtin, binDirMissing, h, w).stored.saved;
      var s := InitializeState(Record(t));
      && s.restored && s.step == 0 && s.total == ProgressSteps && !s.hasView
      && s == t.(step := 0, restored := true)
      && (s.canceled ==> w.cancelDuringCleanup)
  {
    SavedRecord(stored, builtin, binDirMissing, h, w);
  }

  /** A record saved as canceled makes the next run skip all eight tasks:
      its fold only counts the steps and reports progress, and the run ends
      on the cancellation path, removing the virtualenv directory again. */
  lemma CanceledRecordSkipsNextRun(t: State, builtin: bool, binDirMissing: bool, h: Host, w: World)
    requires t.canceled
    ensures var s := Prepare(Record(t), builtin, binDirMissing, h);
      var run := Run(Record(t), builtin, binDirMissing, h, w);
      && run.Done? && run.state == s.(step := |Pipeline|)
      && Every(run.effects, IsProgress)
      && RemoveEnvDir in Command(Record(t), builtin, binDirMissing, h, w).effects
  {
    var s := Prepare(Record(t), builtin, binDirMissing, h);
    var task := TaskOf(w, DependencyNames(h.deps));
    RunFromPrepared(Record(t), builtin, binDirMissing, h, w);
    CanceledRunSkipsTasks(s, 0, w.cancelAt, task);
    CanceledRunShowsProgressOnly(s, 0, w.cancelAt, task);
    RunEffectsOnly(s, 0, w.cancelAt, task);
    FinishCanceled(Run(Record(t), builtin, binDirMissing, h, w), w.cancelDuringCleanup);
  }

  /** The first three tasks when the bundle cannot be fetched: the python
      loop and the virtualenv set-up have no effects, and the first-time
      installation of a fresh run rejects without any. */
  ghost predicate BundleGate(task: Runner)
  {
    && (forall s :: task(EnsurePythonIsAvailable, s).effects == [])
    && (forall s :: task(InstallPlatformIO, s).effects == [])
    && (forall s: State :: !s.restored ==> task(InstallDependenciesFirstTime, s) == Rejected([]))
  }

  lemma BundleFailureGate(w: World, deps: seq<string>)
    requires w.bundle.BundleFailed?
    ensures BundleGate(TaskOf(w, deps))
  {
  }

  lemma NoApmStep(s: State, i: nat, cancelAt: Option<nat>, task: Runner)
    requires i <= 2 && s.total > 0 && !s.restored && WellBehaved(task) && BundleGate(task)
    requires !PressCancel(s, cancelAt, i).canceled
    ensures var s1 := PressCancel(s, cancelAt, i);
      var r1 := Wrap(Pipeline[i], s1, task);
      && (!r1.Done? ==> Every(RunFrom(s, i, cancelAt, task).effects, NotApm))
      && (r1.Done? ==>
            && i < 2 && r1.state.total > 0 && !r1.state.restored
            && (Every(RunFrom(r1.state, i + 1, cancelAt, task).effects, NotApm) ==>
                  Every(RunFrom(s, i, cancelAt, task).effects, NotApm)))
  {
    var s1 := PressCancel(s, cancelAt, i);
    RunStep(s, i, cancelAt, task);
    WrapFrame(Pipeline[i], s1, task);
    var r1 := Wrap(Pipeline[i], s1, task);
    var t := s1.(step := s1.step + 1);
    assert r1.effects == Shown(s1) + task(Pipeline[i], t).effects;
    assert Every(r1.effects, NotApm);
    if r1.Done? {
      EveryAppend(r1.effects, RunFrom(r1.state, i + 1, cancelAt, task).effects, NotApm);
    }
  }

  /** From any position up to the first-time installation, a fresh run whose
      bundle fails shows no `apm` effect. */
  lemma {:induction false} NoApmFrom(s: State, i: nat, cancelAt: Option<nat>, task: Runner)
    requires i <= 2 && s.total > 0 && !s.restored && WellBehaved(task) && BundleGate(task)
    ensures Every(RunFrom(s, i, cancelAt, task).effects, NotApm)
    decreases 2 - i
  {
    var s1 := PressCancel(s, cancelAt, i);
    if s1.canceled {
      PressedFold(s, i, cancelAt, task);
      CanceledRunShowsProgressOnly(s1, i, cancelAt, task);
      ProgressIsNotApm(RunFrom(s, i, cancelAt, task).effects);
    } else {
      NoApmStep(s, i, cancelAt, task);
      var r1 := Wrap(Pipeline[i], s1, task);
      if r1.Done? {
        NoApmFrom(r1.state, i + 1, cancelAt, task);
      }
    }
  }

  /** A first run whose dependency bundle cannot be fetched never runs
      `apm`: the first-time installation rejects before the `apm` tasks, or
      a cancellation skips them all. */
  lemma BundleFailureRunsNoApm(stored: Stored, builtin: bool, binDirMissing: bool, h: Host, w: World)
    requires !stored.Record? && w.bundle.BundleFailed?
    ensures Every(Command(stored, builtin, binDirMissing, h, w).effects, NotApm)
  {
    var s := Prepare(stored, builtin, binDirMissing, h);
    var deps := DependencyNames(h.deps);
    RunFromPrepared(stored, builtin, binDirMissing, h, w);
    BundleFailureGate(w, deps);
    NoApmFrom(s, 0, w.cancelAt, TaskOf(w, deps));
    FinishNoApm(Run(stored, builtin, binDirMissing, h, w), w.cancelDuringCleanup);
  }

  /** The exit paths add no `apm` effect. */
  lemma FinishNoApm(run: TaskResult, pressed: bool)
    requires Every(run.effects, NotApm)
    ensures Every(Finish(run, pressed).effects, NotApm)
  {
    if run.Done? {
      var tail := NotifyUser(run.state) + (if run.state.canceled then [RemoveEnvDir] else []) +
        (if run.state.hasView then [DestroyPanel] else []);
      assert Finish(run, pressed).effects == run.effects + tail;
      EveryAppend(run.effects, tail, NotApm);
    } else if run.Rejected? {
      EveryAppend(run.effects, [RemoveEnvDir], NotApm);
    }
  }
}
