/** The state record that the installation chain of lib/install/command.js
    threads through its tasks, and the pure decisions taken before the first
    wrapped task: restoring the record, whether a virtualenv must be created,
    which packages need work, and whether the progress panel is shown.

    JavaScript's `undefined` fields of a fresh record are written as `false`
    and `[]`: the code only tests them for truthiness or emptiness before it
    assigns them. */
module InstallState {
  import opened Base

  /** `PROGRESS_STEPS`: the number of wrapped tasks, the `total` of a run. */
  const ProgressSteps := 8

  /** The record threaded through the chain. `hasView` stands for the
      `view` and `panel` fields, which are set and deleted together. */
  datatype State = State(
    step: int,
    total: int,
    restored: bool,
    envShouldBeCreated: bool,
    packagesToRemove: seq<string>,
    packagesToInstall: seq<string>,
    packagesToUpgrade: seq<string>,
    packageManagementIsNecessary: bool,
    canceled: bool,
    pythonWorks: bool,
    platformioInstalled: bool,
    hasView: bool)

  /** What `localStorage.getItem` returns under the install-state key, as
      `JSON.parse` sees it: nothing (`null`), text that does not parse, text
      that parses to something other than an object, the text "undefined"
      that a failed run leaves behind, or a saved record. */
  datatype Stored = Missing | Unparsable | NonObject | UndefinedText | Record(saved: State)

  /** `{}`: the record of a run that has nothing to restore. */
  const Empty := State(0, 0, false, false, [], [], [], false, false, false, false, false)

  /** `initializeState`: a stored object is taken over and marked restored;
      anything else, including a value that fails to parse, starts afresh.
      Either way the progress counter starts at 0 of `ProgressSteps`. */
  function InitializeState(stored: Stored): (r: State)
    ensures r.step == 0 && r.total == ProgressSteps
    ensures r.restored <==> stored.Record?
    ensures !r.hasView
    ensures stored.Record? ==>
      r == stored.saved.(step := 0, total := ProgressSteps, restored := true, hasView := false)
    ensures !stored.Record? ==> r == Empty.(total := ProgressSteps)
  {
    var base := match stored
      case Record(saved) => saved.(restored := true, hasView := false)
      case _ => Empty;
    base.(step := 0, total := ProgressSteps)
  }

  /** `checkIfVirtualenvShouldBeCreated`: only in built-in mode, and only
      when the virtualenv's bin directory cannot be found. */
  function CheckIfVirtualenvShouldBeCreated(s: State, builtin: bool, binDirMissing: bool): (r: State)
    ensures r.envShouldBeCreated <==> builtin && binDirMissing
    ensures r == s.(envShouldBeCreated := r.envShouldBeCreated)
  {
    s.(envShouldBeCreated := builtin && binDirMissing)
  }

  /** An entry of `DEPENDENCIES`: a package name and its semver range. */
  datatype Dependency = Dependency(name: string, range: string)

  /** What `loadPackageMetadata` returns for an installed package. */
  datatype Metadata = Metadata(version: string)

  /** The host facts `checkIfPackageManagmentIsNecessary` consults. A
      package path of `""` stands for a falsy `resolvePackagePath` result;
      `satisfies` stands for `semver.satisfies` and is left uninterpreted. */
  datatype Host = Host(
    available: seq<string>,
    stale: seq<string>,
    deps: seq<Dependency>,
    pathOf: string -> string,
    metadataOf: string -> Option<Metadata>,
    satisfies: (string, string) -> bool)

  function Name(d: Dependency): string { d.name }

  /** The names of the dependencies, in declared order. */
  function DependencyNames(deps: seq<Dependency>): (r: seq<string>)
    ensures |r| == |deps|
    ensures forall i :: 0 <= i < |deps| ==> r[i] == deps[i].name
  {
    Map(deps, Name)
  }

  /** The stale-package test as written: `indexOf(name) > 0`, so a stale
      package at the first position of the available list is not selected. */
  function StaleTest(available: seq<string>): string -> bool
  {
    (name: string) => IndexOf(available, name) > 0
  }

  function MissingTest(available: seq<string>): Dependency -> bool
  {
    (d: Dependency) => IndexOf(available, d.name) == -1
  }

  /** The upgrade test: installed (a truthy path), with metadata, and with a
      version outside the required range. */
  predicate NeedsUpgrade(h: Host, d: Dependency)
  {
    && h.pathOf(d.name) != ""
    && h.metadataOf(h.pathOf(d.name)).Some?
    && !h.satisfies(h.metadataOf(h.pathOf(d.name)).value.version, d.range)
  }

  function UpgradeTest(h: Host): Dependency -> bool
  {
    (d: Dependency) => NeedsUpgrade(h, d)
  }

  /** `packagesToRemove`: the stale names, in their order. */
  function PackagesToRemove(h: Host): (r: seq<string>)
    ensures IsSubsequence(r, h.stale)
  {
    Filter(h.stale, StaleTest(h.available))
  }

  /** `packagesToInstall`: the dependency names, in declared order, that
      are not available. */
  function PackagesToInstall(h: Host): (r: seq<string>)
    ensures IsSubsequence(r, DependencyNames(h.deps))
  {
    var kept := Filter(h.deps, MissingTest(h.available));
    MapSubsequence(kept, h.deps, Name);
    DependencyNames(kept)
  }

  /** `packagesToUpgrade`: the dependency names, in declared order, whose
      installed version is outside the required range. */
  function PackagesToUpgrade(h: Host): (r: seq<string>)
    ensures IsSubsequence(r, DependencyNames(h.deps))
  {
    var kept := Filter(h.deps, UpgradeTest(h));
    MapSubsequence(kept, h.deps, Name);
    DependencyNames(kept)
  }

  /** `checkIfPackageManagmentIsNecessary`: the three lists, and the flag
      that says whether any of them holds work. */
  function CheckIfPackageManagementIsNecessary(s: State, h: Host): (r: State)
    ensures r.packagesToRemove == PackagesToRemove(h)
    ensures r.packagesToInstall == PackagesToInstall(h)
    ensures r.packagesToUpgrade == PackagesToUpgrade(h)
    ensures r.packageManagementIsNecessary <==>
      |r.packagesToRemove| > 0 || |r.packagesToInstall| > 0 || |r.packagesToUpgrade| > 0
    ensures r == s.(packagesToRemove := r.packagesToRemove, packagesToInstall := r.packagesToInstall,
                    packagesToUpgrade := r.packagesToUpgrade,
                    packageManagementIsNecessary := r.packageManagementIsNecessary)
  {
    var remove := PackagesToRemove(h);
    var install := PackagesToInstall(h);
    var upgrade := PackagesToUpgrade(h);
    s.(packagesToRemove := remove, packagesToInstall := install, packagesToUpgrade := upgrade,
       packageManagementIsNecessary := |remove| > 0 || |install| > 0 || |upgrade| > 0)
  }

  /** `viewShoulBeDisplayed`. */
  predicate ViewShouldBeDisplayed(s: State)
  {
    !s.restored || s.envShouldBeCreated || s.packageManagementIsNecessary
  }

  /** `initializeView`: the panel is opened when the run has something to
      show; otherwise the record is left as it is. */
  function InitializeView(s: State): (r: State)
    ensures ViewShouldBeDisplayed(s) ==> r == s.(hasView := true)
    ensures !ViewShouldBeDisplayed(s) ==> r == s
  {
    if ViewShouldBeDisplayed(s) then s.(hasView := true) else s
  }

  /** A stale package is removed exactly when it is available at some
      position other than the first. */
  lemma RemoveMembership(h: Host, name: string)
    ensures name in PackagesToRemove(h) <==>
      name in h.stale && name in h.available && h.available[0] != name
  {
    var r := PackagesToRemove(h);
    if name in r {
      var i :| 0 <= i < |r| && r[i] == name;
    }
    if name in h.stale && name in h.available && h.available[0] != name {
      var i :| 0 <= i < |h.stale| && h.stale[i] == name;
    }
  }

  /** A stale package listed first among the available ones is kept. */
  lemma FirstAvailableNeverRemoved(h: Host)
    requires |h.available| > 0
    ensures h.available[0] !in PackagesToRemove(h)
  {
    RemoveMembership(h, h.available[0]);
  }

  /** A name survives a filter of the dependencies exactly when some
      dependency of that name passes the test. */
  lemma FilteredNames(deps: seq<Dependency>, p: Dependency -> bool, name: string)
    ensures name in DependencyNames(Filter(deps, p)) <==>
      exists i :: 0 <= i < |deps| && deps[i].name == name && p(deps[i])
  {
    if name in DependencyNames(Filter(deps, p)) {
      var j := FilteredNameKept(deps, p, name);
    }
    if exists j :: 0 <= j < |deps| && deps[j].name == name && p(deps[j]) {
      var j :| 0 <= j < |deps| && deps[j].name == name && p(deps[j]);
      PassingNameKept(deps, p, j);
    }
  }

  lemma FilteredNameKept(deps: seq<Dependency>, p: Dependency -> bool, name: string) returns (j: int)
    requires name in DependencyNames(Filter(deps, p))
    ensures 0 <= j < |deps| && deps[j].name == name && p(deps[j])
  {
    var f := Filter(deps, p);
    var r := DependencyNames(f);
    var i :| 0 <= i < |r| && r[i] == name;
    var d := f[i];
    assert d in deps && p(d) && d.name == name;
    j :| 0 <= j < |deps| && deps[j] == d;
  }

  lemma PassingNameKept(deps: seq<Dependency>, p: Dependency -> bool, j: int)
    requires 0 <= j < |deps| && p(deps[j])
    ensures deps[j].name in DependencyNames(Filter(deps, p))
  {
    var f := Filter(deps, p);
    assert deps[j] in f;
    var i :| 0 <= i < |f| && f[i] == deps[j];
    assert DependencyNames(f)[i] == deps[j].name;
  }

  /** A name is to be installed exactly when it is a dependency that is
      not available. */
  lemma InstallMembership(h: Host, name: string)
    ensures name in PackagesToInstall(h) <==>
      name in DependencyNames(h.deps) && name !in h.available
  {
    FilteredNames(h.deps, MissingTest(h.available), name);
    var names := DependencyNames(h.deps);
    if name in names {
      var j :| 0 <= j < |names| && names[j] == name;
      assert h.deps[j].name == name;
    }
  }

  /** A name is to be upgraded exactly when some dependency of that name
      resolves to a path with metadata whose version fails its range; so a
      package without a path or without metadata is never upgraded. */
  lemma UpgradeMembership(h: Host, name: string)
    ensures name in PackagesToUpgrade(h) <==>
      exists i :: 0 <= i < |h.deps| && h.deps[i].name == name && NeedsUpgrade(h, h.deps[i])
  {
    FilteredNames(h.deps, UpgradeTest(h), name);
  }

  /** With no stale package available, every dependency available and
      every installed version within its range, a restored run that needs
      no virtualenv has nothing to do and opens no panel. */
  lemma NothingToManage(s: State, h: Host)
    requires s.restored && !s.envShouldBeCreated && !s.hasView
    requires forall i :: 0 <= i < |h.stale| ==> h.stale[i] !in h.available
    requires forall i :: 0 <= i < |h.deps| ==> h.deps[i].name in h.available && !NeedsUpgrade(h, h.deps[i])
    ensures var r := InitializeView(CheckIfPackageManagementIsNecessary(s, h));
      !r.packageManagementIsNecessary && !r.hasView
  {
    var t := CheckIfPackageManagementIsNecessary(s, h);
    if |t.packagesToRemove| > 0 {
      RemoveMembership(h, t.packagesToRemove[0]);
    }
    if |t.packagesToInstall| > 0 {
      InstallMembership(h, t.packagesToInstall[0]);
    }
  }
}
