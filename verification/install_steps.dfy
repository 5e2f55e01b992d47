/** The eight wrapped tasks of the installation chain in
    lib/install/command.js, each with its skip rule, and `wrap`, which counts
    the step, reports progress and skips the task of a canceled run.

    The outside world (the python probe and the user's answers, the
    virtualenv and pip processes, the dependency bundle, `apm`, package
    activation) is a `World` value: each task reads the outcome it needs
    from it instead of running anything. */
module InstallSteps {
  import opened Base
  import opened InstallState

  /** The wrapped tasks, in chain order. */
  datatype StepKind =
    | EnsurePythonIsAvailable
    | InstallPlatformIO
    | InstallDependenciesFirstTime
    | UninstallStaleDependencies
    | InstallNewDependencies
    | UpgradeOutdatedDependencies
    | ActivateInactiveDependencies
    | AdjustToolbarPosition

  /** The order in which the chain wraps the tasks. */
  const Pipeline: seq<StepKind> := [
    EnsurePythonIsAvailable, InstallPlatformIO, InstallDependenciesFirstTime,
    UninstallStaleDependencies, InstallNewDependencies, UpgradeOutdatedDependencies,
    ActivateInactiveDependencies, AdjustToolbarPosition]

  /** The buttons of the "Unable to run python" dialog. */
  datatype Answer = InstallPython | TryAgain | Abort

  /** One round of the python loop: whether `python --version` exits with 0,
      and, if it does not, the button the user presses. */
  datatype Probe = Probe(works: bool, answer: Answer)

  /** How the virtualenv set-up ends: the download of an archive that is not
      cached fails on the network and never settles (`download` listens for
      errors of the file stream only, not of the request), one of the
      download, extraction, `setup.py install` or virtualenv creation stages
      rejects, or everything gets as far as `pip install -U platformio`,
      which exits with some code. */
  datatype PlatformioOutcome = EnvDownloadStalled | EnvSetupFailed | PipExited(success: bool)

  /** The dependency bundle: its download stalls as above, its download or
      extraction rejects, or it yields the names whose source directory
      exists, the names whose target directory already exists, and the
      names whose `fs.copySync` throws. */
  datatype BundleOutcome =
    | BundleStalled
    | BundleFailed
    | Bundle(dirs: set<string>, existing: set<string>, failingCopy: set<string>)

  datatype ApmVerb = Uninstall | Install | Upgrade

  /** Everything the tasks learn from outside. `cancelAt` is the boundary
      (the number of wrapped tasks already run) at which the user presses
      the panel's Cancel button, if ever; `cancelDuringCleanup` says whether
      the user presses it (again) while a canceled run waits for the
      virtualenv directory to be removed. */
  datatype World = World(
    probes: seq<Probe>,
    platformio: PlatformioOutcome,
    bundle: BundleOutcome,
    failingApm: set<ApmVerb>,
    active: set<string>,
    failingActivation: set<string>,
    cancelAt: Option<nat>,
    cancelDuringCleanup: bool)

  /** What the run does to the world, in order. */
  datatype Effect =
    | Progress(percent: int)
    | CopyPackage(name: string)
    | Apm(args: seq<string>)
    | Activate(name: string)
    | ToolbarLeft
    | ReloadPrompt
    | RemoveEnvDir
    | DestroyPanel

  /** A task resolves with a state, rejects, or never resolves (the python
      loop when no probe ever lets it leave, a download that stalls). */
  datatype TaskResult = Done(state: State, effects: seq<Effect>) | Rejected(effects: seq<Effect>) | Hangs(effects: seq<Effect>)

  predicate NoProgress(effects: seq<Effect>)
  {
    forall i :: 0 <= i < |effects| ==> !effects[i].Progress?
  }

  /** The fields a task leaves alone: the counters, the view and the flags
      decided before the first task. */
  predicate SameFrame(s: State, t: State)
  {
    t.step == s.step && SameFlags(s, t)
  }

  /** The fields no step changes: the total, the view and the flags decided
      before the first task. */
  predicate SameFlags(s: State, t: State)
  {
    && t.total == s.total && t.hasView == s.hasView
    && t.restored == s.restored && t.envShouldBeCreated == s.envShouldBeCreated
    && t.packageManagementIsNecessary == s.packageManagementIsNecessary
  }

  /** A probe that ends the python loop: python runs, or the user aborts. */
  predicate Exits(p: Probe)
  {
    p.works || p.answer == Abort
  }

  /** The rounds of the loop in `ensurePythonIsAvailable`, one probe each. */
  function PythonRounds(s: State, probes: seq<Probe>): (r: TaskResult)
    ensures r.effects == [] && !r.Rejected?
    ensures r.Done? ==> r.state.pythonWorks || r.state.canceled
    ensures r.Done? ==> r.state == s.(pythonWorks := r.state.pythonWorks, canceled := r.state.canceled)
  {
    if |probes| == 0 then Hangs([])
    else if probes[0].works then Done(s.(pythonWorks := true), [])
    else if probes[0].answer == Abort then Done(s.(canceled := true), [])
    else PythonRounds(s, probes[1..])
  }

  /** `ensurePythonIsAvailable`: `pythonWorks` is reset, then the loop runs
      until python works or the run is canceled. */
  function EnsurePython(s: State, probes: seq<Probe>): (r: TaskResult)
    ensures r.effects == []
    ensures r.Done? ==> r.state.pythonWorks || r.state.canceled
    ensures r.Done? ==> r.state == s.(pythonWorks := r.state.pythonWorks, canceled := r.state.canceled)
    ensures !r.Rejected?
  {
    var t := s.(pythonWorks := false);
    if t.canceled then Done(t, []) else PythonRounds(t, probes)
  }

  /** The loop leaves at the first probe that lets it leave: with python
      working if that probe found it, canceled if the user aborted there;
      it never leaves if no probe does. */
  lemma {:induction false} PythonLoopExit(s: State, probes: seq<Probe>, i: int)
    requires !s.canceled
    requires 0 <= i < |probes| && Exits(probes[i])
    requires forall j :: 0 <= j < i ==> !Exits(probes[j])
    ensures EnsurePython(s, probes) ==
      Done(s.(pythonWorks := probes[i].works, canceled := !probes[i].works), [])
  {
    var t := s.(pythonWorks := false);
    PythonRoundsExit(t, probes, i);
  }

  lemma {:induction false} PythonRoundsExit(t: State, probes: seq<Probe>, i: int)
    requires !t.canceled && !t.pythonWorks
    requires 0 <= i < |probes| && Exits(probes[i])
    requires forall j :: 0 <= j < i ==> !Exits(probes[j])
    ensures PythonRounds(t, probes) ==
      Done(t.(pythonWorks := probes[i].works, canceled := !probes[i].works), [])
  {
    if i > 0 {
      assert !Exits(probes[0]);
      PythonRoundsExit(t, probes[1..], i - 1);
    }
  }

  lemma {:induction false} PythonLoopHangs(s: State, probes: seq<Probe>)
    requires !s.canceled
    requires forall j :: 0 <= j < |probes| ==> !Exits(probes[j])
    ensures EnsurePython(s, probes) == Hangs([])
  {
    PythonRoundsHang(s.(pythonWorks := false), probes);
  }

  lemma {:induction false} PythonRoundsHang(t: State, probes: seq<Probe>)
    requires forall j :: 0 <= j < |probes| ==> !Exits(probes[j])
    ensures PythonRounds(t, probes) == Hangs([])
  {
    if |probes| > 0 {
      PythonRoundsHang(t, probes[1..]);
    }
  }

  /** `installPlatformIO`: nothing to do unless a virtualenv is to be created;
      a stalled download never settles, a failing set-up stage rejects, and
      pip's exit code sets `platformioInstalled` without stopping the run. */
  function InstallPlatformIOTask(s: State, outcome: PlatformioOutcome): (r: TaskResult)
    ensures !s.envShouldBeCreated ==> r == Done(s, [])
    ensures s.envShouldBeCreated ==>
      && (r.Hangs? <==> outcome.EnvDownloadStalled?)
      && (r.Rejected? <==> outcome.EnvSetupFailed?)
      && (r.Done? ==> r.state == s.(platformioInstalled := outcome.success))
    ensures r.effects == []
  {
    if !s.envShouldBeCreated then Done(s, [])
    else match outcome
      case EnvDownloadStalled => Hangs([])
      case EnvSetupFailed => Rejected([])
      case PipExited(success) => Done(s.(platformioInstalled := success), [])
  }

  /** A package of the bundle is copied when its source is a directory and
      its target does not exist yet. */
  function CopyTest(dirs: set<string>, existing: set<string>): string -> bool
  {
    (name: string) => name in dirs && name !in existing
  }

  function NotIn(names: seq<string>): string -> bool
  {
    (name: string) => IndexOf(names, name) == -1
  }

  function CopyEffect(name: string): Effect { CopyPackage(name) }

  /** The number of copies that complete: `fs.copySync` throws at the
      first name of `failing`, and the later names are not attempted. */
  function CopiesBeforeFailure(names: seq<string>, failing: set<string>): (r: nat)
    ensures r <= |names|
    ensures forall j :: 0 <= j < r ==> names[j] !in failing
    ensures r < |names| ==> names[r] in failing
  {
    if |names| == 0 || names[0] in failing then 0
    else 1 + CopiesBeforeFailure(names[1..], failing)
  }

  /** The names of the bundle that the loop of `installDependenciesFirstTime`
      copies, in the order of `packagesToInstall`. */
  function ToCopy(s: State, bundle: BundleOutcome): seq<string>
    requires bundle.Bundle?
  {
    Filter(s.packagesToInstall, CopyTest(bundle.dirs, bundle.existing))
  }

  /** `installDependenciesFirstTime`: only for a run that restored nothing.
      The packages copied out of the bundle are dropped from
      `packagesToInstall`, by membership in the list of copied names. A copy
      that throws rejects the task after the copies made before it. */
  function InstallDependenciesFirstTimeTask(s: State, bundle: BundleOutcome): (r: TaskResult)
    ensures s.restored ==> r == Done(s, [])
    ensures !s.restored && bundle.BundleStalled? ==> r == Hangs([])
    ensures !s.restored && bundle.BundleFailed? ==> r == Rejected([])
    ensures !s.restored && bundle.Bundle? ==>
      (r.Rejected? <==> exists j :: 0 <= j < |ToCopy(s, bundle)| && ToCopy(s, bundle)[j] in bundle.failingCopy)
    ensures r.Rejected? && bundle.Bundle? ==>
      && |r.effects| < |ToCopy(s, bundle)| && ToCopy(s, bundle)[|r.effects|] in bundle.failingCopy
      && forall j :: 0 <= j < |r.effects| ==>
           r.effects[j] == CopyPackage(ToCopy(s, bundle)[j]) && ToCopy(s, bundle)[j] !in bundle.failingCopy
    ensures r.Done? ==> r.state == s.(packagesToInstall := r.state.packagesToInstall)
    ensures r.Done? && !s.restored ==>
      && r.state.packagesToInstall == Filter(s.packagesToInstall, Not(CopyTest(bundle.dirs, bundle.existing)))
      && r.effects == Map(ToCopy(s, bundle), CopyEffect)
      && |r.effects| + |r.state.packagesToInstall| == |s.packagesToInstall|
  {
    if s.restored then Done(s, [])
    else match bundle
      case BundleStalled => Hangs([])
      case BundleFailed => Rejected([])
      case Bundle(dirs, existing, failingCopy) =>
        var copied := Filter(s.packagesToInstall, CopyTest(dirs, existing));
        var k := CopiesBeforeFailure(copied, failingCopy);
        assert copied == ToCopy(s, bundle);
        if k < |copied| then
          assert copied[k] in failingCopy;
          Rejected(Map(copied[..k], CopyEffect))
        else
          var rest := Filter(s.packagesToInstall, NotIn(copied));
          CopiedAndRestSplit(s.packagesToInstall, CopyTest(dirs, existing));
          FilterCongruent(s.packagesToInstall, NotIn(copied), Not(CopyTest(dirs, existing)));
          Done(s.(packagesToInstall := rest), Map(copied, CopyEffect))
  }

  function Not(p: string -> bool): string -> bool
  {
    (name: string) => !p(name)
  }

  /** Every element is kept by exactly one of a test and its negation, and
      the test keeps exactly the elements of its own result. */
  lemma CopiedAndRestSplit(s: seq<string>, p: string -> bool)
    ensures |Filter(s, p)| + |Filter(s, Not(p))| == |s|
    ensures forall i :: 0 <= i < |s| ==> NotIn(Filter(s, p))(s[i]) == Not(p)(s[i])
  {
    if |s| > 0 {
      CopiedAndRestSplit(s[1..], p);
    }
    forall i | 0 <= i < |s|
      ensures NotIn(Filter(s, p))(s[i]) == Not(p)(s[i])
    {
      var c := Filter(s, p);
      if s[i] in c {
        var k :| 0 <= k < |c| && c[k] == s[i];
      }
    }
  }

  function VerbName(verb: ApmVerb): string
  {
    match verb
    case Uninstall => "uninstall"
    case Install => "install"
    case Upgrade => "upgrade"
  }

  /** The arguments `apm` passes to the apm executable: the action, the
      packages, then the extra arguments (`--no-confirm` for an upgrade). */
  function ApmArgs(verb: ApmVerb, packages: seq<string>): (r: seq<string>)
    ensures |r| == 1 + |packages| + (if verb == Upgrade then 1 else 0)
    ensures r[0] == VerbName(verb) && r[1..1 + |packages|] == packages
    ensures verb == Upgrade ==> r[|r| - 1] == "--no-confirm"
  {
    [VerbName(verb)] + packages + (if verb == Upgrade then ["--no-confirm"] else [])
  }

  /** The action named by the first argument. */
  function VerbOf(name: string): Option<ApmVerb>
  {
    if name == "uninstall" then Some(Uninstall)
    else if name == "install" then Some(Install)
    else if name == "upgrade" then Some(Upgrade)
    else None
  }

  /** The packages named by an `apm` command line. */
  function PackagesOf(args: seq<string>): seq<string>
  {
    if |args| == 0 then []
    else if VerbOf(args[0]) == Some(Upgrade) && |args| >= 2 && args[|args| - 1] == "--no-confirm" then args[1..|args| - 1]
    else args[1..]
  }

  /** An `apm` command line names its action and its packages unambiguously. */
  lemma ApmArgsRoundTrip(verb: ApmVerb, packages: seq<string>)
    ensures VerbOf(ApmArgs(verb, packages)[0]) == Some(verb)
    ensures PackagesOf(ApmArgs(verb, packages)) == packages
  {
    var r := ApmArgs(verb, packages);
    if verb == Upgrade {
      assert r[1..|r| - 1] == packages;
    } else {
      assert r[1..] == packages;
    }
  }

  /** The three `apm` tasks: nothing to do on an empty list; otherwise one
      `apm` run, whose non-zero exit rejects. */
  function ApmTask(s: State, verb: ApmVerb, packages: seq<string>, failing: set<ApmVerb>): (r: TaskResult)
    ensures |packages| == 0 ==> r == Done(s, [])
    ensures |packages| > 0 ==> r.effects == [Apm(ApmArgs(verb, packages))] && (r.Rejected? <==> verb in failing)
    ensures r.Done? ==> r.state == s
    ensures !r.Hangs?
  {
    if |packages| == 0 then Done(s, [])
    else if verb in failing then Rejected([Apm(ApmArgs(verb, packages))])
    else Done(s, [Apm(ApmArgs(verb, packages))])
  }

  function InactiveTest(active: set<string>): string -> bool
  {
    (name: string) => name !in active
  }

  /** Activating the packages one after the other; a failing activation
      rejects and the later ones are not attempted. */
  function ActivateAll(s: State, names: seq<string>, failing: set<string>): (r: TaskResult)
    ensures r.Done? <==> forall i :: 0 <= i < |names| ==> names[i] !in failing
    ensures r.Done? ==> r.state == s && |r.effects| == |names|
    ensures !r.Hangs? && |r.effects| <= |names|
    ensures forall k :: 0 <= k < |r.effects| ==> r.effects[k] == Activate(names[k])
  {
    if |names| == 0 then Done(s, [])
    else if names[0] in failing then Rejected([Activate(names[0])])
    else
      var rest := ActivateAll(s, names[1..], failing);
      if rest.Done? then Done(rest.state, [Activate(names[0])] + rest.effects)
      else Rejected([Activate(names[0])] + rest.effects)
  }

  /** `activateInactiveDependencies`: every dependency not active yet. */
  function ActivateInactiveTask(s: State, deps: seq<string>, active: set<string>, failing: set<string>): (r: TaskResult)
    ensures r.Done? ==> r.state == s
    ensures !r.Hangs?
    ensures forall k :: 0 <= k < |r.effects| ==> r.effects[k].Activate? && r.effects[k].name in deps && r.effects[k].name !in active
  {
    var names := Filter(deps, InactiveTest(active));
    ActivateAll(s, names, failing)
  }

  /** `adjustToolbarPosition`: the tool bar goes left on a first run only. */
  function AdjustToolbarTask(s: State): (r: TaskResult)
    ensures r.Done? && r.state == s
    ensures r.effects == (if s.restored then [] else [ToolbarLeft])
  {
    if !s.restored then Done(s, [ToolbarLeft]) else Done(s, [])
  }

  /** One task, without its wrapper. `deps` are the dependency names. */
  function Task(kind: StepKind, s: State, w: World, deps: seq<string>): (r: TaskResult)
    ensures r.Done? ==> SameFrame(s, r.state)
    ensures r.Done? && !s.canceled && kind != EnsurePythonIsAvailable ==> !r.state.canceled
    ensures NoProgress(r.effects)
    ensures r.Hangs? ==>
      && (kind == EnsurePythonIsAvailable || kind == InstallPlatformIO || kind == InstallDependenciesFirstTime)
      && r.effects == []
  {
    match kind
    case EnsurePythonIsAvailable => EnsurePython(s, w.probes)
    case InstallPlatformIO => InstallPlatformIOTask(s, w.platformio)
    case InstallDependenciesFirstTime => InstallDependenciesFirstTimeTask(s, w.bundle)
    case UninstallStaleDependencies => ApmTask(s, Uninstall, s.packagesToRemove, w.failingApm)
    case InstallNewDependencies => ApmTask(s, Install, s.packagesToInstall, w.failingApm)
    case UpgradeOutdatedDependencies => ApmTask(s, Upgrade, s.packagesToUpgrade, w.failingApm)
    case ActivateInactiveDependencies => ActivateInactiveTask(s, deps, w.active, w.failingActivation)
    case AdjustToolbarPosition => AdjustToolbarTask(s)
  }

  /** A task that stops early (rejects or hangs) has left at most one `apm`
      run behind, unless it is one of the two tasks that work through a list
      one package at a time. */
  lemma TaskStopsAtOnce(kind: StepKind, s: State, w: World, deps: seq<string>)
    requires kind != ActivateInactiveDependencies && kind != InstallDependenciesFirstTime
    ensures var r := Task(kind, s, w, deps);
      r.Done? || r.effects == [] || (|r.effects| == 1 && r.effects[0].Apm?)
  {
  }

  /** The effects a task can have. */
  predicate TaskEffect(e: Effect)
  {
    e.CopyPackage? || e.Apm? || e.Activate? || e.ToolbarLeft?
  }

  /** What every task promises: it leaves the frame of the record alone
      and has only task effects (no progress, no panel, no clean-up). */
  predicate TaskBehaves(s: State, r: TaskResult)
  {
    && (r.Done? ==> SameFrame(s, r.state))
    && forall j :: 0 <= j < |r.effects| ==> TaskEffect(r.effects[j])
  }

  /** The tasks of a run, with the world they see fixed. */
  type Runner = (StepKind, State) -> TaskResult

  function TaskOf(w: World, deps: seq<string>): Runner
  {
    (k: StepKind, s: State) => Task(k, s, w, deps)
  }

  ghost predicate WellBehaved(task: Runner)
  {
    forall k: StepKind, s: State :: TaskBehaves(s, task(k, s))
  }

  lemma TasksWellBehaved(w: World, deps: seq<string>)
    ensures WellBehaved(TaskOf(w, deps))
  {
    forall k: StepKind, s: State
      ensures TaskBehaves(s, TaskOf(w, deps)(k, s))
    {
      var r := Task(k, s, w, deps);
      assert forall j :: 0 <= j < |r.effects| ==> TaskEffect(r.effects[j]);
    }
  }

  /** The percentage `wrap` shows after counting a step. `Math.floor(step /
      total * 100)` is computed in floating point; for `total` 8 and steps 0
      to 8 every intermediate value is exact, so it equals this floor
      division. */
  function Percent(step: int, total: int): int
    requires total > 0
  {
    step * 100 / total
  }

  /** `wrap(task)`: the step is counted whatever happens, the progress is
      shown when there is a panel, and a canceled run skips the task; an
      uncanceled one runs it on the counted record. */
  function Wrap(kind: StepKind, s: State, task: Runner): (r: TaskResult)
    requires s.total > 0
    ensures var t := s.(step := s.step + 1);
      && (s.canceled ==> r == Done(t, Shown(s)))
      && (!s.canceled ==>
            && r.effects == Shown(s) + task(kind, t).effects
            && (r.Done? <==> task(kind, t).Done?) && (r.Rejected? <==> task(kind, t).Rejected?)
            && (r.Done? ==> r.state == task(kind, t).state))
  {
    var t := s.(step := s.step + 1);
    var shown := Shown(s);
    if t.canceled then Done(t, shown)
    else match task(kind, t)
      case Done(u, e) => Done(u, shown + e)
      case Rejected(e) => Rejected(shown + e)
      case Hangs(e) => Hangs(shown + e)
  }

  /** The progress report a wrapped task makes for the step it counts, when
      the panel is shown. */
  function Shown(s: State): (r: seq<Effect>)
    requires s.total > 0
    ensures |r| <= 1
    ensures s.hasView <==> r == [Progress(Percent(s.step + 1, s.total))]
  {
    if s.hasView then [Progress(Percent(s.step + 1, s.total))] else []
  }
}
