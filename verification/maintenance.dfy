/** The environment bookkeeping of lib/maintenance.js: how `updateOSEnviron`
    and `handleCustomPATH` edit the process environment, PATH above all.

    The environment is a map from variable names to strings. JavaScript's
    falsy configuration values (`undefined`, `null`, the empty string) are all
    written as the empty string here: the code only tests them for truthiness. */
module Maintenance {
  import opened Strings

  const PathKey := "PATH"
  const CallerKey := "PLATFORMIO_CALLER"
  const IdeKey := "PLATFORMIO_IDE"
  /** The caller identity exported to PlatformIO. */
  const Caller := "atom"

  /** The environment after an update, or the TypeError raised when the code
      reads `process.env.PATH` while it is undefined. */
  datatype EnvResult = Updated(vars: map<string, string>) | PathUndefined

  /** The two `replace` calls that take an entry out of PATH: the first
      `entry + delim` goes, then, in what is left, the first `delim + entry`. */
  function RemoveEntry(path: string, entry: string, delim: string): (r: string)
    ensures !Contains(path, entry + delim) && !Contains(path, delim + entry) ==> r == path
    ensures |r| <= |path|
  {
    ReplaceFirst(ReplaceFirst(path, entry + delim, ""), delim + entry, "")
  }

  /** PATH after `handleCustomPATH(newValue, oldValue)`. */
  function HandleCustomPath(path: string, newValue: string, oldValue: string, delim: string): (r: string)
    ensures oldValue == "" && newValue != "" && !Contains(path, newValue) ==> r == newValue + delim + path
    ensures oldValue == "" && (newValue == "" || Contains(path, newValue)) ==> r == path
    ensures oldValue != "" ==>
      var stripped := RemoveEntry(path, oldValue, delim);
      && (newValue != "" && !Contains(stripped, newValue) ==> r == newValue + delim + stripped)
      && (newValue == "" || Contains(stripped, newValue) ==> r == stripped)
  {
    var stripped := if oldValue != "" then RemoveEntry(path, oldValue, delim) else path;
    if newValue != "" && IndexOf(stripped, newValue) < 0 then newValue + delim + stripped
    else stripped
  }

  /** PATH after the first branch of `updateOSEnviron`: in built-in mode the
      bin directory is put in front unless it already occurs somewhere in
      PATH; otherwise its first `binDir + delim` and first `delim + binDir`
      are taken out. */
  function BinDirStep(path: string, builtin: bool, binDir: string, delim: string): (r: string)
    ensures builtin && !Contains(path, binDir) ==> r == binDir + delim + path
    ensures builtin && Contains(path, binDir) ==> r == path
    ensures !builtin ==> r == RemoveEntry(path, binDir, delim)
  {
    if builtin then
      if IndexOf(path, binDir) < 0 then binDir + delim + path else path
    else RemoveEntry(path, binDir, delim)
  }

  /** `updateOSEnviron`: the bin-directory step, then the custom PATH entry,
      then the two PlatformIO variables. Every other variable is left alone. */
  function UpdateOSEnviron(env: map<string, string>, builtin: bool, binDir: string,
                           customPath: string, ideVersion: string, delim: string): (r: EnvResult)
    ensures r.PathUndefined? <==> PathKey !in env
    ensures r.Updated? ==>
      && r.vars.Keys == env.Keys + {CallerKey, IdeKey}
      && r.vars[CallerKey] == Caller
      && r.vars[IdeKey] == ideVersion
      && r.vars[PathKey] == HandleCustomPath(BinDirStep(env[PathKey], builtin, binDir, delim), customPath, "", delim)
      && forall k :: k in env && k != PathKey && k != CallerKey && k != IdeKey ==> r.vars[k] == env[k]
  {
    if PathKey !in env then PathUndefined
    else
      var path := BinDirStep(env[PathKey], builtin, binDir, delim);
      var path' := HandleCustomPath(path, customPath, "", delim);
      Updated(env[PathKey := path'][CallerKey := Caller][IdeKey := ideVersion])
  }

  /** `handleCustomPATH(newValue, oldValue)` on the whole environment, as the
      configuration observer calls it. PATH is only read when one of the two
      values is truthy. */
  function HandleCustomPathEnv(env: map<string, string>, newValue: string, oldValue: string,
                               delim: string): (r: EnvResult)
    ensures r.PathUndefined? <==> PathKey !in env && (newValue != "" || oldValue != "")
    ensures r.Updated? ==> r.vars.Keys == env.Keys
    ensures r.Updated? ==> forall k :: k in env && k != PathKey ==> r.vars[k] == env[k]
    ensures r.Updated? && PathKey in env ==>
      r.vars[PathKey] == HandleCustomPath(env[PathKey], newValue, oldValue, delim)
  {
    if PathKey !in env then
      if newValue != "" || oldValue != "" then PathUndefined else Updated(env)
    else Updated(env[PathKey := HandleCustomPath(env[PathKey], newValue, oldValue, delim)])
  }

  /** After `handleCustomPATH(v)` with a truthy `v`, PATH contains `v`. */
  lemma CustomEntryPresent(path: string, newValue: string, oldValue: string, delim: string)
    requires newValue != ""
    ensures Contains(HandleCustomPath(path, newValue, oldValue, delim), newValue)
  {
    var stripped := if oldValue != "" then RemoveEntry(path, oldValue, delim) else path;
    if IndexOf(stripped, newValue) < 0 {
      ContainsPrefix(newValue, delim + stripped);
      assert newValue + delim + stripped == newValue + (delim + stripped);
    }
  }

  /** With no old value, applying `handleCustomPATH(v)` twice is applying it once. */
  lemma HandleCustomPathIdempotent(path: string, newValue: string, delim: string)
    ensures var once := HandleCustomPath(path, newValue, "", delim);
            HandleCustomPath(once, newValue, "", delim) == once
  {
    if newValue != "" {
      CustomEntryPresent(path, newValue, "", delim);
    }
  }

  /** In built-in mode PATH contains the bin directory after the first step. */
  lemma BinDirPresent(path: string, binDir: string, delim: string)
    ensures Contains(BinDirStep(path, true, binDir, delim), binDir)
  {
    if !Contains(path, binDir) {
      ContainsPrefix(binDir, delim + path);
      assert binDir + delim + path == binDir + (delim + path);
    }
  }

  /** When both the bin directory and the custom entry are inserted, PATH
      starts with `custom + delim + binDir + delim` followed by the old PATH. */
  lemma BothInsertedOrder(path: string, binDir: string, customPath: string, delim: string)
    requires !Contains(path, binDir)
    requires customPath != "" && !Contains(binDir + delim + path, customPath)
    ensures HandleCustomPath(BinDirStep(path, true, binDir, delim), customPath, "", delim)
            == customPath + delim + binDir + delim + path
  {
  }

  /** In built-in mode `updateOSEnviron` is idempotent: the second call finds
      both entries in PATH and rewrites the two variables with the same values. */
  lemma {:induction false} UpdateOSEnvironIdempotent(env: map<string, string>, binDir: string,
                                                     customPath: string, ideVersion: string, delim: string)
    requires PathKey in env
    ensures var once := UpdateOSEnviron(env, true, binDir, customPath, ideVersion, delim);
            once.Updated? && UpdateOSEnviron(once.vars, true, binDir, customPath, ideVersion, delim) == once
  {
    var once := UpdateOSEnviron(env, true, binDir, customPath, ideVersion, delim);
    var p1 := BinDirStep(env[PathKey], true, binDir, delim);
    var p2 := HandleCustomPath(p1, customPath, "", delim);
    assert once.vars[PathKey] == p2;
    BinDirPresent(env[PathKey], binDir, delim);
    if customPath != "" && !Contains(p1, customPath) {
      ContainsAfterPrepend(customPath + delim, p1, binDir);
      assert p2 == (customPath + delim) + p1;
    }
    assert Contains(p2, binDir);
    assert BinDirStep(p2, true, binDir, delim) == p2;
    HandleCustomPathIdempotent(p1, customPath, delim);
    assert HandleCustomPath(p2, customPath, "", delim) == p2;
    var twice := UpdateOSEnviron(once.vars, true, binDir, customPath, ideVersion, delim);
    assert twice.vars == once.vars;
  }

  /** Only the first `entry + delim` and the first `delim + entry` are removed:
      a third occurrence of the entry survives. */
  lemma OnlyFirstOccurrencesRemoved()
    ensures RemoveEntry("b:x:b:y:b:z", "b", ":") == "x:y:b:z"
  {
    assert "b" + ":" == "b:" && ":" + "b" == ":b";
    FirstEntryDelimRemoved();
    FirstDelimEntryRemoved();
  }

  lemma FirstEntryDelimRemoved()
    ensures ReplaceFirst("b:x:b:y:b:z", "b:", "") == "x:b:y:b:z"
  {
    DeleteFirstAt("b:x:b:y:b:z", "b:", 0);
  }

  lemma FirstDelimEntryRemoved()
    ensures ReplaceFirst("x:b:y:b:z", ":b", "") == "x:y:b:z"
  {
    assert "x:b:y:b:z"[0..2][0] == 'x';
    DeleteFirstAt("x:b:y:b:z", ":b", 1);
  }
}
