# PlatformIO IDE for Atom: installer, PATH and board picker, modelled in Dafny

This project models three pieces of decision logic from the PlatformIO IDE
package for Atom, and proves properties about them.

- **The installation chain** of `lib/install/command.js`:
  - the state record threaded through the chain, and `initializeState`;
  - the package-need computation (`checkIfPackageManagmentIsNecessary`);
  - the view decision;
  - the eight wrapped tasks, each with its skip rule;
  - `wrap`, which counts the step, shows progress and skips the tasks of a canceled run;
  - the three exit paths: success, the `catch`, and cancellation.

  The chain is a fold over the list of the eight task kinds (`InstallSteps.Pipeline`). It is driven by a `World` value that supplies every outside outcome:
  - the python probes and the user's answers;
  - how the virtualenv and pip set-up ends;
  - the dependency bundle, including a copy out of it that throws;
  - whether a download stalls on the network;
  - which `apm` actions and which activations fail;
  - which packages are active;
  - the step boundary at which the user presses Cancel, and whether Cancel is pressed again while a canceled run is cleaned up.
- **The PATH bookkeeping** of `lib/maintenance.js` (`updateOSEnviron` and `handleCustomPATH`). The environment is a map and PATH a string. `String.prototype.replace` with a string pattern replaces only the first occurrence, and is modelled as `Strings.ReplaceFirst`.
- **The board picker** of `lib/boards-select/view.js`. The model covers:
  - the choice list that `filterBoardsChoices` builds: a placeholder, then one option group per vendor;
  - the selected-set updates of the `onchange` handler and of `handleRemove`.

Files:

- `base.dfy`: `Option`, and `filter`/`indexOf`/`map` on arrays with their facts.
- `strings.dfy`: JavaScript string order (UTF-16 code units compared lexicographically), `indexOf`, first-occurrence `replace`, and a stable sort by a string key.
- `maintenance.dfy`: the PATH logic.
- `boards_select.dfy`: the picker.
- `install_state.dfy`: the record and the decisions taken before the first task.
- `install_steps.dfy`: the tasks and `wrap`.
- `install_command.dfy`: the fold, the exit paths, and the lemmas about whole runs.

The model follows the code, also where it departs from its design description or behaves in ways worth knowing:

- **PATH editing.** Only the first `entry + delimiter` and the first `delimiter + entry` are removed from PATH, not every occurrence.
- **State after a failed run.** The state is not always persisted. After a rejected task the `catch` resolves with nothing, so `destroyViewAndSaveState` stores the text "undefined". That text does not parse, so the next `initializeState` starts afresh. The panel of such a run is not destroyed.
- **Stale packages.** The stale-package test is `indexOf(name) > 0`, kept as written. A stale package listed first among the available packages is never removed.
- **`handleRemove`.** It does not rebuild the choice list, so a removed board is offered again only after the next change.
- **Downloads.** `download` listens for errors of the file stream only. A request that fails on the network is never answered, so the promise stays pending and the run stops inside `installPlatformIO` or `installDependenciesFirstTime`: its panel stays up, nothing is removed and nothing is saved.
- **Cancel during clean-up.** `cleanupIfCanceled` deletes `canceled` and then waits for the virtualenv directory to be removed, while the panel's Cancel button is still live. A press during that wait is saved as `canceled: true`, and the next run restores it and skips all eight tasks.

## Model

| member | source | states |
|---|---|---|
| Strings.IndexOf | lib/maintenance.js:142 | -1 exactly when the pattern does not occur; otherwise a position where it occurs with no occurrence before it |
| Strings.ReplaceFirst | lib/maintenance.js:139-140 | without an occurrence the string is unchanged; otherwise the text before the first occurrence is kept, the pattern is replaced there, and the rest follows unchanged |
| Strings.LeqIsCodeUnitOrder | lib/boards-select/view.js:73-81 | the character-wise order is exactly the lexicographic order of the strings' UTF-16 code units, which JavaScript's `<` and `>` compare |
| Strings.AstralBeforePrivateUse | lib/boards-select/view.js:103 | a character above U+FFFF sorts before U+E000, as its surrogate code unit is smaller, although its code point is larger |
| Strings.SortBy | lib/boards-select/view.js:73-81 | the result is ordered by the key under the code-unit string order and is a permutation of the input |
| Maintenance.RemoveEntry | lib/maintenance.js:138-141 | when neither `entry + delim` nor `delim + entry` occurs, PATH is unchanged; it never grows |
| Maintenance.HandleCustomPath | lib/maintenance.js:137-145 | a truthy new value that is not yet a substring of the (stripped) PATH is prepended with the delimiter; otherwise PATH stays as it is after stripping the old value |
| Maintenance.BinDirStep | lib/maintenance.js:37-44 | built-in mode prepends the bin directory exactly when it is not already a substring; otherwise its first two delimited occurrences are removed |
| Maintenance.UpdateOSEnviron | lib/maintenance.js:36-50 | fails exactly when PATH is undefined; otherwise PATH gets the bin-dir step then the custom entry, the two PlatformIO variables are set to "atom" and the IDE version, and every other variable is kept |
| Maintenance.HandleCustomPathEnv | lib/maintenance.js:137-145 | fails exactly when PATH is undefined and a value is truthy; otherwise only PATH changes |
| Maintenance.CustomEntryPresent | lib/maintenance.js:142-144 | after the call, PATH contains a truthy new value |
| Maintenance.HandleCustomPathIdempotent | lib/maintenance.js:142-144 | with no old value, applying the update twice gives the PATH of applying it once |
| Maintenance.BinDirPresent | lib/maintenance.js:37-40 | in built-in mode PATH contains the bin directory after the first step |
| Maintenance.BothInsertedOrder | lib/maintenance.js:37-46 | when both entries are inserted, PATH is `custom + delim + binDir + delim + old PATH` |
| Maintenance.UpdateOSEnvironIdempotent | lib/maintenance.js:36-50 | in built-in mode a second `updateOSEnviron` leaves the environment as the first one left it |
| Maintenance.OnlyFirstOccurrencesRemoved | lib/maintenance.js:41-44 | removing `b` from `b:x:b:y:b:z` gives `x:y:b:z`: the third occurrence survives |
| BoardsSelect.Vendors | lib/boards-select/view.js:83-99 | no vendor twice, and a vendor is listed exactly when some unselected board has it |
| BoardsSelect.Groups | lib/boards-select/view.js:103-106 | one option group per vendor name, in the given order, holding that vendor's unselected boards |
| BoardsSelect.ChoiceList | lib/boards-select/view.js:66-107 | the placeholder comes first, even with no board left, and everything after it is an option group |
| BoardsSelect.FilterBoardsChoices | lib/boards-select/view.js:66-107 | the loop-and-table construction yields exactly the functional choice list |
| BoardsSelect.CollectGroups | lib/boards-select/view.js:83-99 | the vendor table gets its keys in first-appearance order, and each group holds that vendor's unselected boards in the order of the sorted boards |
| BoardsSelect.AppendGroups | lib/boards-select/view.js:101-106 | the placeholder is followed by the table's groups in the order of the sorted vendor names |
| BoardsSelect.NoSelectedBoardOffered | lib/boards-select/view.js:87-88 | no selected board id is the value of any option |
| BoardsSelect.OptionsUnderOwnVendor | lib/boards-select/view.js:84-99 | every option stands for an unselected board of the table, inside the group labelled with that board's vendor |
| BoardsSelect.EveryOfferedBoardListed | lib/boards-select/view.js:84-99 | the options, counted with multiplicity, are exactly the unselected boards of the table |
| BoardsSelect.OfferedBoardAppearsOnce | lib/boards-select/view.js:84-99 | with distinct board ids, every unselected board appears exactly once |
| BoardsSelect.GroupsAscending | lib/boards-select/view.js:103-106 | group labels are strictly ascending, so no vendor has two groups |
| BoardsSelect.GroupsNonEmpty | lib/boards-select/view.js:90-98 | no group is empty |
| BoardsSelect.GroupPerOfferedVendor | lib/boards-select/view.js:90-93 | the group labels are exactly the vendors with at least one unselected board |
| BoardsSelect.NamesSortedWithinGroups | lib/boards-select/view.js:73-99 | inside each group the option names never decrease |
| BoardsSelect.OffersUnselected | lib/boards-select/view.js:84-99 | every board of the table that is not selected is offered by some group of the list |
| BoardsSelect.NewPicker | lib/boards-select/view.js:47-60 | a new picker keeps the board table, has nothing selected, and its list is the choice list of the whole table, so it starts with the placeholder and offers every board |
| BoardsSelect.OnChange | lib/boards-select/view.js:40-45 | the chosen id joins the selected set; the list is rebuilt as the choice list of the whole table for the new selection, so it no longer offers the chosen board and still offers every other unselected one |
| BoardsSelect.HandleRemove | lib/boards-select/view.js:143-148 | the id leaves the selected set; the boards and the choice list are untouched |
| BoardsSelect.ChooseThenRemove | lib/boards-select/view.js:143-148 | choosing then removing a board restores the selected set, but the list still does not offer the board |
| InstallState.InitializeState | lib/install/command.js:116-138 | step 0 of 8; restored exactly when the stored value parses to an object, which is then taken over; anything else gives a fresh record |
| InstallState.CheckIfVirtualenvShouldBeCreated | lib/install/command.js:156-163 | a virtualenv is to be created exactly in built-in mode with the bin directory missing; nothing else changes |
| InstallState.PackagesToRemove | lib/install/command.js:168-169 | the packages to remove are stale names, in their order |
| InstallState.PackagesToInstall | lib/install/command.js:170-171 | the packages to install are dependency names, in declared order |
| InstallState.PackagesToUpgrade | lib/install/command.js:172-188 | the packages to upgrade are dependency names, in declared order |
| InstallState.CheckIfPackageManagementIsNecessary | lib/install/command.js:165-196 | sets the three lists; package management is necessary exactly when one of them is non-empty; nothing else changes |
| InstallState.InitializeView | lib/install/command.js:198-205 | a panel is opened exactly when the record is fresh, needs a virtualenv or needs package work |
| InstallState.RemoveMembership | lib/install/command.js:168-169 | a name is removed exactly when it is stale, available, and not the first available package |
| InstallState.FirstAvailableNeverRemoved | lib/install/command.js:168-169 | the first available package is never removed |
| InstallState.InstallMembership | lib/install/command.js:170-171 | a name is installed exactly when it is a dependency and not available |
| InstallState.UpgradeMembership | lib/install/command.js:172-188 | a name is upgraded exactly when a dependency of that name resolves to a path with metadata whose version fails its range |
| InstallState.NothingToManage | lib/install/command.js:190-205 | a restored run needing no virtualenv, with every dependency available and in range and no stale package available, needs no package work and opens no panel |
| InstallSteps.PythonRounds | lib/install/command.js:224-230 | the loop has no effects and never rejects; when it ends, python works or the run is canceled, and nothing else changed |
| InstallSteps.EnsurePython | lib/install/command.js:207-243 | `pythonWorks` is reset first; the task ends with python working or the run canceled, touches nothing else, and never rejects |
| InstallSteps.PythonLoopExit | lib/install/command.js:224-230 | the loop leaves at the first probe that works or aborts, with python working or the run canceled accordingly |
| InstallSteps.PythonLoopHangs | lib/install/command.js:224-230 | the loop never ends when no probe works and the user never aborts |
| InstallSteps.InstallPlatformIOTask | lib/install/command.js:336-366 | skipped without a virtualenv to create; otherwise never settles exactly when the download stalls, rejects exactly when a set-up stage fails, and pip's exit code sets `platformioInstalled`; no effects |
| InstallSteps.CopiesBeforeFailure | lib/install/command.js:378-388 | the copies that complete are those before the first name whose copy throws |
| InstallSteps.InstallDependenciesFirstTimeTask | lib/install/command.js:368-393 | skipped for a restored run; otherwise a stalled download never settles and a failed bundle rejects; a bundle rejects exactly when some copy throws, after copying the names before it; otherwise it copies the packages whose source is a directory and whose target is absent, and keeps the others in order |
| InstallSteps.CopiedAndRestSplit | lib/install/command.js:384-390 | each package is either copied or kept, and filtering by membership in the copied list equals the negated copy test |
| InstallSteps.ApmArgs | lib/install/command.js:489-493 | the `apm` command line is the action, the packages, then `--no-confirm` for an upgrade |
| InstallSteps.ApmArgsRoundTrip | lib/install/command.js:489-493 | the action and the packages can be read back from the command line |
| InstallSteps.ApmTask | lib/install/command.js:395-417 | a no-op on an empty list; otherwise one `apm` run, which rejects exactly when the action fails |
| InstallSteps.ActivateAll | lib/install/command.js:423-433 | the effects are activations of the packages in their order, never more than the list; the task resolves, having activated all of them, exactly when none fails |
| InstallSteps.ActivateInactiveTask | lib/install/command.js:419-434 | only inactive dependencies are activated, and the record is unchanged |
| InstallSteps.AdjustToolbarTask | lib/install/command.js:455-460 | the tool bar goes left on a fresh run only |
| InstallSteps.Task | lib/install/command.js:43-52 | no task touches the step, the total, the view or the pre-run flags, or shows progress; only the python loop and the two download tasks can hang, with no effects, and only the python loop can cancel |
| InstallSteps.TaskStopsAtOnce | lib/install/command.js:395-417 | apart from activation and the first-time copy, which go through their packages one by one, a task that does not finish has left nothing behind or a single `apm` run |
| InstallSteps.TasksWellBehaved | lib/install/command.js:43-52 | every task of a run keeps the record's frame and has only task effects |
| InstallSteps.Wrap | lib/install/command.js:506-518 | the step is counted and progress shown first; a canceled run skips the task; an uncanceled run's outcome is the task's |
| InstallSteps.Shown | lib/install/command.js:509-511 | the percentage of the counted step is shown exactly when there is a panel |
| InstallCommand.PressCancel | lib/install/command.js:200-202 | the Cancel button sets `canceled` only when a panel exists, and changes nothing else |
| InstallCommand.Prepare | lib/install/command.js:37-42 | the record before the first wrapped task: step 0 of 8, the decisions above, and a panel exactly when the view should be displayed |
| InstallCommand.NotifyUser | lib/install/command.js:436-453 | the reload prompt appears exactly when the run is not canceled and had a reason to show its panel |
| InstallCommand.CatchRejection | lib/install/command.js:56-59 | the `catch` removes the virtualenv directory and loses the record |
| InstallCommand.CleanupIfCanceled | lib/install/command.js:462-475 | a canceled record loses its flag, unless Cancel is pressed on its panel while the virtualenv directory is removed; anything else passes through |
| InstallCommand.DestroyViewAndSaveState | lib/install/command.js:477-487 | the panel, if any, is destroyed and the record without its view is saved; a lost record is saved as the text "undefined" |
| InstallCommand.Finish | lib/install/command.js:54-62 | a hang never finishes; a rejection saves "undefined" after removing the virtualenv; a resolved run saves its record without view, canceled only after a press during the clean-up |
| InstallCommand.WrapFrame | lib/install/command.js:506-518 | one wrapped task counts exactly one step, keeps the frame, and has only progress or task effects |
| InstallCommand.RunCountsSteps | lib/install/command.js:43-52 | a fold that reaches the end has counted one step per wrapped task, run or skipped, and kept the pre-run flags |
| InstallCommand.RunEffectsOnly | lib/install/command.js:43-52 | the fold only shows progress and runs tasks |
| InstallCommand.WrapProgress | lib/install/command.js:509-511 | one wrapped task shows its own percentage when there is a panel, and no other |
| InstallCommand.RunProgress | lib/install/command.js:43-52 | with a panel, the fold shows the percentages of the steps it counts, in order: all of them when it resolves |
| InstallCommand.RunWithoutPanel | lib/install/command.js:509-511 | without a panel the fold shows no progress |
| InstallCommand.FullSchedulePrefix | lib/install/command.js:510 | percentages of steps 1 to 8 of 8 are a prefix of 12, 25, 37, 50, 62, 75, 87, 100: ascending and within 1 to 100 |
| InstallCommand.ChainProgress | lib/install/command.js:36-65 | a whole run shows a prefix of that schedule, all of it when every task resolves, and nothing without a panel |
| InstallCommand.CanceledWrap | lib/install/command.js:512-515 | a canceled record skips the task and only counts and shows the step |
| InstallCommand.CanceledRunSkipsTasks | lib/install/command.js:512-515 | once canceled, the fold runs no task and resolves with the record, only the step advanced |
| InstallCommand.CanceledRunShowsProgressOnly | lib/install/command.js:506-518 | once canceled, the fold has no effect but progress |
| InstallCommand.FinishRejected | lib/install/command.js:56-62 | after a rejection the virtualenv is removed, "undefined" is saved, and there is no reload prompt and no panel destruction |
| InstallCommand.FinishCanceled | lib/install/command.js:61-62 | a canceled run removes the virtualenv, offers no reload, closes the panel exactly when it had one, and saves a record canceled exactly when Cancel was pressed on that panel during the removal |
| InstallCommand.FinishSucceeded | lib/install/command.js:54-62 | an uncanceled run offers the reload and closes the panel exactly when it had a reason to show one, removes nothing, and saves an uncanceled record |
| InstallCommand.SavedRecord | lib/install/command.js:462-487 | a saved record comes from a resolved run, has counted all 8 steps and has no view; it is canceled exactly when the run was canceled with a panel and Cancel was pressed again during the clean-up |
| InstallCommand.ErrorPath | lib/install/command.js:56-62 | a rejected run saves "undefined", keeps its panel, removes the virtualenv, and the next run starts unrestored |
| InstallCommand.CancelPath | lib/install/command.js:462-475 | a canceled run removes the virtualenv, offers no reload, closes the panel it had, and saves a record that is canceled exactly when it had a panel and Cancel was pressed during the removal |
| InstallCommand.SuccessPath | lib/install/command.js:436-453 | a successful run closes the panel and offers the reload exactly when the view should have been displayed |
| InstallCommand.SaveRestoreRoundTrip | lib/install/command.js:116-138 | a saved record comes back restored, at step 0 of 8, without view, otherwise as saved; it is canceled only after a press during the clean-up |
| InstallCommand.CanceledRecordSkipsNextRun | lib/install/command.js:116-138 | a run that restores a canceled record skips all eight tasks, shows only progress, and removes the virtualenv directory again |
| InstallCommand.BundleFailureRunsNoApm | lib/install/command.js:368-375 | a fresh run whose dependency bundle fails never runs `apm` |

## Left out

- Filesystem, network and archive work are replaced by outcomes in `World`: `fs.stat`, `mkdir`, `copySync`, `remove`, the downloads of `getCachedArchive`, tarball extraction, and temporary directories. The board table and the PATH delimiter are parameters.
- `ensureThatCacheDirectoryExists` is not modelled: it leaves the record alone, and the throw in its `mkdir` callback cannot reach the chain.
- The virtualenv set-up stages (`installVirtualenvIntoTemporaryDirectory`, `makePenv`) are reduced to "a download stalls", "some stage rejects" or "pip exited with this status".
- A copy out of the bundle that throws may leave part of its target behind; the model records only the copies that completed.
- The process spawns are inputs of the model, not run: the python probe, pip, `apm`, virtualenv. So are Atom's host APIs: `localStorage`, notifications, `confirm`, config, workspace panels and package activation.
- The "Install Python" button opens a browser and, like "Try again", lets the loop go on; the model treats it as "try again".
- `semver.satisfies` is an uninterpreted predicate, since it lives in an outside library.
- `reinstallPlatformIO` is not modelled. Neither are the other I/O-only commands of `lib/maintenance.js`: `installCommands`, `openTerminal`, `checkClang`, `checkIfPlatformIOCanBeExecuted`, `setBuildPanelVisibility`, `onActivate`.
- Promise scheduling is modelled as a sequential fold. The Cancel button can be pressed at a boundary between wrapped tasks, or during the clean-up of a canceled run, and only while a panel exists. The task running when it is pressed is not interrupted. Apart from this button, only the python dialog's Abort sets the flag. The view of lib/install/view.js is not part of this model: if it disabled its button after the first press, the press during the clean-up could not happen.
- The progress value is `Math.floor(step / total * 100)` in floating point. The model uses integer floor division, which agrees with it for total 8 and steps 0 to 8.
- `DEPENDENCIES` is an object, so its keys are unique. The model takes a sequence of dependencies and does not require unique names.
- The DOM work of the board view is not modelled: template parsing, element creation, `createSelected`, `renderSelectedBoards`, `destroy`, `getDirectory`, and `checkPlaceholderAndUlVisibility` (which reads `length` of a `Set`).
- The JavaScript sort may order boards with equal names in any order; the model fixes the stable one.
- InstallState.PackagesToRemove: its contract says only that the result is a subsequence of the stale list; which names are kept is stated by InstallState.RemoveMembership.
- InstallState.PackagesToInstall: its contract gives the order only; membership is stated by InstallState.InstallMembership.
- InstallState.PackagesToUpgrade: its contract gives the order only; membership is stated by InstallState.UpgradeMembership.
