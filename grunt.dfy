/**
 * cmdModules/public/grunt/commands.js: run a Grunt task in a new Windows
 * console opened in the current target directory or in the directory of a
 * path alias, both read through the file-path module's hooks.
 *
 * The commands count their arguments (`arguments.length`), so they are given
 * the argument list itself. The file-path module's data is passed in, and
 * the platform `os.platform()` reports is a parameter; `exec` is left out and
 * each command yields the statement it would hand to it.
 */
module Grunt {
  import opened Wrappers
  import opened Arguments
  import FilePath
  import Core
  import Output
  import Strings

  /** The message of the error a command throws. */
  function Fail<T>(message: string): Result<T>
  {
    Err(Output.ThrowError(message))
  }

  const NoTask: string := "This function requires at least one argument: task name or taskname:parameters"
  const TooManyArguments: string :=
    "This function takes only two arguments: a path alias and a task name or taskname:parameters"
  const NoOptions: string :=
    "This function requires at least two arguments: task name or taskname:parameters and option data for the task."
  const AliasSet: string := "The specified alias is an alias set."

  /** `fp.hooks.getAlias(alias)` followed by the commands' refusal of an alias set. */
  function AliasPath(fp: FilePath.Data, alias: Arg): (r: Result<string>)
    ensures r.Ok? <==> alias.Str? && alias.s in fp.aliases && fp.aliases[alias.s].Single?
    ensures r.Ok? ==> r.value == fp.aliases[alias.s].path
    ensures alias.Str? && alias.s in fp.aliases && fp.aliases[alias.s].Set? ==> r == Fail(AliasSet)
  {
    match FilePath.GetAliasOn(fp, alias)
    case Err(m) => Err(m)
    case Ok(v) => if v.Set? then Fail(AliasSet) else Ok(v.path)
  }

  /** The prefix from `createTerminalExecutionPrefix`, the Grunt call, and the closing quote. */
  function TaskStatement(path: string, task: string, tail: string, platform: string): (r: Result<string>)
    ensures r.Err? <==> platform != "win32"
    ensures r.Ok? ==> r.value == Core.CreateTerminalExecutionPrefix(path, task, platform).value
                                 + " & grunt " + task + tail + "\""
    ensures r.Ok? ==> Core.CreateTerminalExecutionPrefix(path, task, platform).value <= r.value
    ensures r.Ok? ==> |r.value| > 0 && r.value[|r.value| - 1] == '"'
  {
    match Core.CreateTerminalExecutionPrefix(path, task, platform)
    case Err(m) => Err(m)
    case Ok(prefix) => Ok(prefix + " & grunt " + task + tail + "\"")
  }

  /**
   * `grunt`: one argument is the task, run in the target directory; two are
   * a path alias and the task.
   */
  function GruntOn(fp: FilePath.Data, args: seq<Arg>, platform: string): (r: Result<string>)
    ensures r.Ok? ==> platform == "win32" && 1 <= |args| <= 2
    ensures r.Ok? ==> |r.value| > 0 && r.value[|r.value| - 1] == '"'
  {
    if |args| == 0 then Fail(NoTask)
    else if |args| > 2 then Fail(TooManyArguments)
    else if |args| == 1 then TaskStatement(fp.target.path, Text(args[0]), "", platform)
    else
      match AliasPath(fp, args[0])
      case Err(m) => Err(m)
      case Ok(path) => TaskStatement(path, Text(args[1]), "", platform)
  }

  /**
   * `gruntWithOptions`: two arguments are the task and its options, run in
   * the target directory; with more, the first is a path alias and any
   * beyond the third are ignored.
   */
  function GruntWithOptionsOn(fp: FilePath.Data, args: seq<Arg>, platform: string): (r: Result<string>)
    ensures r.Ok? ==> platform == "win32" && 2 <= |args|
    ensures r.Ok? ==> |r.value| > 0 && r.value[|r.value| - 1] == '"'
  {
    if |args| < 2 then Fail(NoOptions)
    else if |args| == 2 then TaskStatement(fp.target.path, Text(args[0]), " " + Text(args[1]), platform)
    else
      match AliasPath(fp, args[0])
      case Err(m) => Err(m)
      case Ok(path) => TaskStatement(path, Text(args[1]), " " + Text(args[2]), platform)
  }

  /** The argument counts each command refuses, with the message it throws. */
  lemma ArgumentCounts(fp: FilePath.Data, args: seq<Arg>, platform: string)
    ensures |args| == 0 ==> GruntOn(fp, args, platform) == Fail(NoTask)
    ensures |args| > 2 ==> GruntOn(fp, args, platform) == Fail(TooManyArguments)
    ensures |args| < 2 ==> GruntWithOptionsOn(fp, args, platform) == Fail(NoOptions)
  {
  }

  /** Off Windows no statement is produced once the directory is found; the platform error is thrown instead. */
  lemma WindowsOnly(fp: FilePath.Data, task: Arg, options: Arg, platform: string)
    requires platform != "win32"
    ensures GruntOn(fp, [task], platform) == Err(Output.ThrowError("Currently only executes on Windows operating systems."))
    ensures GruntWithOptionsOn(fp, [task, options], platform)
            == Err(Output.ThrowError("Currently only executes on Windows operating systems."))
  {
  }

  /** An alias set, an unknown alias or a missing alias is refused before any statement is built. */
  lemma AliasMustBeOnePath(fp: FilePath.Data, alias: Arg, task: Arg, options: Arg, platform: string)
    requires !(alias.Str? && alias.s in fp.aliases && fp.aliases[alias.s].Single?)
    ensures GruntOn(fp, [alias, task], platform) == AliasPath(fp, alias)
    ensures GruntWithOptionsOn(fp, [alias, task, options], platform) == AliasPath(fp, alias)
    ensures AliasPath(fp, alias).Err?
  {
  }

  /**
   * In the target directory, on Windows, a path with no drive letter is
   * changed to directly and the task is run there, the task also naming the
   * console window.
   */
  lemma GruntInTarget(fp: FilePath.Data, task: string)
    requires ':' !in fp.target.path
    ensures GruntOn(fp, [Str(task)], "win32")
            == Ok("start \"" + task + "\" cmd /k \"cd " + fp.target.path + " & grunt " + task + "\"")
  {
    Core.TerminalPrefixWithoutDrive(fp.target.path, task);
    var prefix := "start \"" + task + "\" cmd /k \"cd " + fp.target.path;
    assert prefix + " & grunt " + task + "" == prefix + " & grunt " + task;
  }

  /** Through an alias whose path opens with a drive: switch drive, change directory, run the task. */
  lemma GruntThroughAlias(fp: FilePath.Data, alias: string, task: string, drive: char, rest: string)
    requires alias in fp.aliases && fp.aliases[alias] == FilePath.Single([drive, ':'] + rest)
    requires !Strings.IsSpace(drive)
    ensures GruntOn(fp, [Str(alias), Str(task)], "win32")
            == Ok("start \"" + task + "\" cmd /k \"" + [drive, ':'] + " & cd " + rest + " & grunt " + task + "\"")
  {
    Core.TerminalPrefixSwitchesDrive(drive, rest, task);
    assert AliasPath(fp, Str(alias)) == Ok([drive, ':'] + rest);
    var prefix := "start \"" + task + "\" cmd /k \"" + [drive, ':'] + " & cd " + rest;
    assert prefix + " & grunt " + task + "" == prefix + " & grunt " + task;
  }

  /**
   * `gruntWithOptions` builds the statement `grunt` does for the same
   * directory and task, with a space and the options before the closing
   * quote; arguments past the third change nothing.
   */
  lemma OptionsExtendGrunt(fp: FilePath.Data, alias: Arg, task: Arg, options: Arg, extra: seq<Arg>, platform: string)
    ensures GruntOn(fp, [task], platform).Ok? ==>
      var plain := GruntOn(fp, [task], platform).value;
      GruntWithOptionsOn(fp, [task, options], platform)
        == Ok(plain[..|plain| - 1] + " " + Text(options) + "\"")
    ensures GruntOn(fp, [alias, task], platform).Ok? ==>
      var plain := GruntOn(fp, [alias, task], platform).value;
      GruntWithOptionsOn(fp, [alias, task, options] + extra, platform)
        == Ok(plain[..|plain| - 1] + " " + Text(options) + "\"")
  {
    var args := [alias, task, options] + extra;
    assert args[0] == alias && args[1] == task && args[2] == options;
    OptionsBeforeQuote(fp.target.path, Text(task), Text(options), platform);
    if AliasPath(fp, alias).Ok? {
      OptionsBeforeQuote(AliasPath(fp, alias).value, Text(task), Text(options), platform);
    }
  }

  /** The statement with options is the one without, its closing quote moved past them. */
  lemma OptionsBeforeQuote(path: string, task: string, options: string, platform: string)
    ensures TaskStatement(path, task, "", platform).Ok? ==>
      var plain := TaskStatement(path, task, "", platform).value;
      TaskStatement(path, task, " " + options, platform) == Ok(plain[..|plain| - 1] + " " + options + "\"")
  {
    if platform == "win32" {
      var head := Core.CreateTerminalExecutionPrefix(path, task, platform).value + " & grunt " + task;
      assert TaskStatement(path, task, "", platform).value == head + "\"";
      assert (head + "\"")[..|head|] == head;
      assert TaskStatement(path, task, " " + options, platform).value == head + " " + options + "\"";
    }
  }
}
