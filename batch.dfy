/**
 * cmdModules/public/batch/commands.js: named Windows batch files ("batch
 * aliases") and the `start ... cmd /k` statement that runs one in a new
 * console window opened in the batch file's directory.
 *
 * As in the file-path module, each command is stated as a function from the
 * old `data` to the outcome (`...On`) and as a method of `Batches` that edits
 * the fields in place and is proved to agree with that function.
 */
module Batch {
  import opened Wrappers
  import opened Strings
  import opened Arguments
  import opened Tables
  import Output
  import Core

  /** The module's `data` object: the verbose flag and alias -> batch file path. */
  datatype Data = Data(verbose: bool, aliases: map<string, string>)

  /** `initialData` of the module's init file. */
  const Initial: Data := Data(false, map[])

  /** The message of the error a command throws. */
  function Fail<T>(message: string): Result<T>
  {
    Err(Output.ThrowError(message))
  }

  const BooleanRequired: string :=
    "You must provide a string representing a Boolean value (true/false, yes/no, or y/n)"

  /** The last `\`-separated piece of a path: the batch file's name. */
  function FileName(p: string): (r: string)
    ensures '\\' !in r
  {
    var pieces := Split(p, '\\');
    pieces[|pieces| - 1]
  }

  /** The pieces before the last, joined again with `\`: the batch file's directory. */
  function Directory(p: string): string
  {
    var pieces := Split(p, '\\');
    Join(pieces[..|pieces| - 1], "\\")
  }

  /** A path ending in `\` and a name: the name is the file and the rest is the directory. */
  lemma DirectoryAndFile(dir: string, file: string)
    requires '\\' !in file
    ensures FileName(dir + "\\" + file) == file
    ensures Directory(dir + "\\" + file) == dir
  {
    SplitAppend(dir, '\\', file);
    var pieces := Split(dir + "\\" + file, '\\');
    assert pieces[..|pieces| - 1] == Split(dir, '\\');
    JoinSplit(dir, '\\');
  }

  /** A path without any `\` is a bare file name in no directory. */
  lemma BareFileName(p: string)
    requires '\\' !in p
    ensures FileName(p) == p && Directory(p) == ""
  {
    IndexOfAbsent(p, '\\', 0);
  }

  /**
   * `parseBatchFileStatement`: with a drive token anywhere in the path the
   * console switches to that drive and changes to the directory with its own
   * drive token taken out; without one it is handed the directory as it is.
   */
  function ParseBatchFileStatement(batchPath: string, alias: string): (r: string)
    ensures ConsoleOpening(alias) <= r
    ensures var tail := RunFile(FileName(batchPath)); |tail| <= |r| && r[|r| - |tail|..] == tail
  {
    var batchFilename := FileName(batchPath);
    var pathString := Directory(batchPath);
    var middle :=
      match Core.DriveToken(batchPath)
      case Some(k) => batchPath[k..k + 2] + " & cd " + Core.RemoveDriveToken(pathString)
      case None => pathString;
    var r := ConsoleOpening(alias) + middle + RunFile(batchFilename);
    assert r[|r| - |RunFile(batchFilename)|..] == RunFile(batchFilename);
    r
  }

  /** `start "<alias>" cmd /k "`: a console titled with the alias. */
  function ConsoleOpening(alias: string): string
  {
    "start \"" + alias + "\" cmd /k \""
  }

  /** ` & <file>"`: the file is run, then the statement's quote closes. */
  function RunFile(batchFilename: string): string
  {
    " & " + batchFilename + "\""
  }

  /** A path opening with a drive: switch to the drive, change to the directory, run the file. */
  lemma StatementWithDrive(alias: string, drive: char, dir: string, file: string)
    requires !IsSpace(drive) && '\\' !in file
    ensures ParseBatchFileStatement([drive, ':'] + dir + "\\" + file, alias)
            == "start \"" + alias + "\" cmd /k \"" + [drive, ':'] + " & cd " + dir + " & " + file + "\""
  {
    var p := [drive, ':'] + dir + "\\" + file;
    DirectoryAndFile([drive, ':'] + dir, file);
    assert Core.DriveToken(p) == Some(0);
    assert p[0..2] == [drive, ':'];
    var pathString := [drive, ':'] + dir;
    assert Core.DriveToken(pathString) == Some(0);
    assert pathString[..0] + pathString[2..] == dir;
  }

  /** A path with no colon at all: the directory is handed over as it is. */
  lemma StatementWithoutDrive(alias: string, dir: string, file: string)
    requires ':' !in dir && ':' !in file && '\\' !in file
    ensures ParseBatchFileStatement(dir + "\\" + file, alias)
            == "start \"" + alias + "\" cmd /k \"" + dir + " & " + file + "\""
  {
    var p := dir + "\\" + file;
    DirectoryAndFile(dir, file);
    assert ':' !in p;
    assert Core.DriveToken(p) == None;
  }

  /** `setBatchAliasVerbose`. */
  function SetBatchAliasVerboseOn(d: Data, setting: Arg): Result<Data>
  {
    if setting.Null? || !Core.IsBoolean(Core.Text(setting.s)) then Fail(BooleanRequired)
    else Ok(d.(verbose := Core.BooleanValue(Core.Text(setting.s))))
  }

  /** The checks of `createBatchAlias`; None when the alias may be created. */
  function CreateFailure(d: Data, alias: Arg, path: Arg): (r: Option<string>)
    ensures r.None? <==> alias.Str? && path.Str? && alias.s !in d.aliases
  {
    if alias.Null? || path.Null? then Some("The batch file alias and batch file parameters must be defined.")
    else if alias.s in d.aliases then
      Some("Alias '" + alias.s + "' already exists; use updateBatchAlias or deleteBatchAlias to change.")
    else None
  }

  /** `createBatchAlias`. */
  function CreateBatchAliasOn(d: Data, alias: Arg, path: Arg): Result<Data>
  {
    match CreateFailure(d, alias, path)
    case Some(m) => Fail(m)
    case None => Ok(d.(aliases := d.aliases[alias.s := path.s]))
  }

  /** The checks of `renameBatchAlias`; None when the alias may be renamed. */
  function RenameFailure(d: Data, current: Arg, newAlias: Arg): (r: Option<string>)
    ensures r.None? <==> current.Str? && newAlias.Str? && current.s in d.aliases
  {
    if current.Null? || newAlias.Null? then Some("The current and new alias names must be defined.")
    else if current.s !in d.aliases then
      Some("Alias '" + current.s + "' not found; use createBatchAlias to create.")
    else None
  }

  /** `renameBatchAlias`: copy to the new name, then delete the old one. */
  function RenameBatchAliasOn(d: Data, current: Arg, newAlias: Arg): Result<Data>
  {
    match RenameFailure(d, current, newAlias)
    case Some(m) => Fail(m)
    case None => Ok(d.(aliases := MoveKey(d.aliases, current.s, newAlias.s)))
  }

  /** The checks of `updateBatchAlias`; None when the alias may be updated. */
  function UpdateFailure(d: Data, alias: Arg, path: Arg): (r: Option<string>)
    ensures r.None? <==> alias.Str? && path.Str? && alias.s in d.aliases
  {
    if alias.Null? || path.Null? then Some("The batch file alias and filepath parameters must be defined.")
    else if alias.s !in d.aliases then
      Some("Batch file alias '" + alias.s + "' not found; use createBatchAlias to create.")
    else None
  }

  /** `updateBatchAlias`. */
  function UpdateBatchAliasOn(d: Data, alias: Arg, path: Arg): Result<Data>
  {
    match UpdateFailure(d, alias, path)
    case Some(m) => Fail(m)
    case None => Ok(d.(aliases := d.aliases[alias.s := path.s]))
  }

  /** The checks `deleteBatchAlias` and `batch` share; None when the alias exists. */
  function LookupFailure(d: Data, alias: Arg): (r: Option<string>)
    ensures r.None? <==> alias.Str? && alias.s in d.aliases
  {
    if alias.Null? then Some("The batch file alias parameter must be defined.")
    else if alias.s !in d.aliases then Some("Batch file alias '" + alias.s + "' not found.")
    else None
  }

  /** `deleteBatchAlias`. */
  function DeleteBatchAliasOn(d: Data, alias: Arg): Result<Data>
  {
    match LookupFailure(d, alias)
    case Some(m) => Fail(m)
    case None => Ok(d.(aliases := d.aliases - {alias.s}))
  }

  /** `batch`: the statement handed to `exec` for the stored path. */
  function BatchOn(d: Data, alias: Arg): (r: Result<string>)
    ensures r.Ok? <==> alias.Str? && alias.s in d.aliases
    ensures r.Ok? ==> r.value == ParseBatchFileStatement(d.aliases[alias.s], alias.s)
  {
    match LookupFailure(d, alias)
    case Some(m) => Fail(m)
    case None => Ok(ParseBatchFileStatement(d.aliases[alias.s], alias.s))
  }

  /** A command's outcome and the state it leaves, as its specification function has them. */
  predicate Done(r: Result<()>, before: Data, after: Data, spec: Result<Data>)
  {
    match spec
    case Err(m) => r == Err(m) && after == before
    case Ok(d) => r == Ok(()) && after == d
  }

  /** The module-level `data` object and the commands that update it. */
  class Batches {
    var verbose: bool
    var aliases: map<string, string>

    function State(): Data
      reads this
    {
      Data(verbose, aliases)
    }

    /** The data a fresh installation starts with. */
    constructor()
      ensures State() == Initial
    {
      verbose := false;
      aliases := map[];
    }

    method SetBatchAliasVerbose(setting: Arg) returns (r: Result<()>)
      modifies this
      ensures Done(r, old(State()), State(), SetBatchAliasVerboseOn(old(State()), setting))
    {
      if setting.Null? || !Core.IsBoolean(Core.Text(setting.s)) {
        return Fail(BooleanRequired);
      }
      verbose := Core.BooleanValue(Core.Text(setting.s));
      return Ok(());
    }

    method CreateBatchAlias(alias: Arg, path: Arg) returns (r: Result<()>)
      modifies this
      ensures Done(r, old(State()), State(), CreateBatchAliasOn(old(State()), alias, path))
    {
      var failure := CreateFailure(State(), alias, path);
      if failure.Some? {
        return Fail(failure.value);
      }
      aliases := aliases[alias.s := path.s];
      return Ok(());
    }

    method RenameBatchAlias(current: Arg, newAlias: Arg) returns (r: Result<()>)
      modifies this
      ensures Done(r, old(State()), State(), RenameBatchAliasOn(old(State()), current, newAlias))
    {
      var failure := RenameFailure(State(), current, newAlias);
      if failure.Some? {
        return Fail(failure.value);
      }
      aliases := aliases[newAlias.s := aliases[current.s]];
      aliases := aliases - {current.s};
      return Ok(());
    }

    method UpdateBatchAlias(alias: Arg, path: Arg) returns (r: Result<()>)
      modifies this
      ensures Done(r, old(State()), State(), UpdateBatchAliasOn(old(State()), alias, path))
    {
      var failure := UpdateFailure(State(), alias, path);
      if failure.Some? {
        return Fail(failure.value);
      }
      aliases := aliases[alias.s := path.s];
      return Ok(());
    }

    method DeleteBatchAlias(alias: Arg) returns (r: Result<()>)
      modifies this
      ensures Done(r, old(State()), State(), DeleteBatchAliasOn(old(State()), alias))
    {
      var failure := LookupFailure(State(), alias);
      if failure.Some? {
        return Fail(failure.value);
      }
      aliases := aliases - {alias.s};
      return Ok(());
    }

    /** `batch`, with `exec` left out: the statement it would run. */
    method Batch(alias: Arg) returns (r: Result<string>)
      ensures r.Ok? <==> alias.Str? && alias.s in aliases
      ensures r.Ok? ==> r.value == ParseBatchFileStatement(aliases[alias.s], alias.s)
      ensures r == BatchOn(State(), alias)
    {
      var failure := LookupFailure(State(), alias);
      if failure.Some? {
        return Fail(failure.value);
      }
      return Ok(ParseBatchFileStatement(aliases[alias.s], alias.s));
    }
  }

  /** `setBatchAliasVerbose` succeeds exactly on Boolean strings and leaves the aliases alone. */
  lemma SetBatchAliasVerboseEffect(d: Data, setting: Arg)
    ensures SetBatchAliasVerboseOn(d, setting).Ok? <==> setting.Str? && Core.IsBoolean(Core.Text(setting.s))
    ensures SetBatchAliasVerboseOn(d, setting).Ok? ==>
      SetBatchAliasVerboseOn(d, setting).value.aliases == d.aliases
  {
  }

  /** `createBatchAlias` adds exactly the new key; `deleteBatchAlias` then gives the data back. */
  lemma CreateBatchAliasThenDelete(d: Data, alias: string, path: string)
    requires alias !in d.aliases
    ensures CreateBatchAliasOn(d, Str(alias), Str(path)).Ok?
    ensures var e := CreateBatchAliasOn(d, Str(alias), Str(path)).value;
      e.verbose == d.verbose && e.aliases.Keys == d.aliases.Keys + {alias}
      && (forall k :: k in d.aliases ==> e.aliases[k] == d.aliases[k])
      && BatchOn(e, Str(alias)) == Ok(ParseBatchFileStatement(path, alias))
      && DeleteBatchAliasOn(e, Str(alias)) == Ok(d)
  {
    var e := CreateBatchAliasOn(d, Str(alias), Str(path)).value;
    assert e.aliases - {alias} == d.aliases;
  }

  /** A name in use cannot be created again, and an unknown one cannot be updated. */
  lemma CreateAndUpdateGuarded(d: Data, alias: string, path: Arg)
    ensures alias in d.aliases ==> CreateBatchAliasOn(d, Str(alias), path).Err?
    ensures alias !in d.aliases ==> UpdateBatchAliasOn(d, Str(alias), path).Err?
  {
  }

  /** `updateBatchAlias` replaces only that path, and `batch` then runs the new file. */
  lemma UpdateBatchAliasThenRun(d: Data, alias: string, path: string)
    requires alias in d.aliases
    ensures UpdateBatchAliasOn(d, Str(alias), Str(path)).Ok?
    ensures var e := UpdateBatchAliasOn(d, Str(alias), Str(path)).value;
      e.verbose == d.verbose && e.aliases.Keys == d.aliases.Keys
      && (forall k :: k in d.aliases && k != alias ==> e.aliases[k] == d.aliases[k])
      && BatchOn(e, Str(alias)) == Ok(ParseBatchFileStatement(path, alias))
  {
  }

  /** `deleteBatchAlias` succeeds exactly on a known alias, removes only it, and `batch` no longer finds it. */
  lemma DeleteBatchAliasEffect(d: Data, alias: Arg)
    ensures DeleteBatchAliasOn(d, alias).Ok? <==> alias.Str? && alias.s in d.aliases
    ensures DeleteBatchAliasOn(d, alias).Ok? ==>
      var e := DeleteBatchAliasOn(d, alias).value;
      e.verbose == d.verbose && e.aliases.Keys == d.aliases.Keys - {alias.s}
      && (forall k :: k in e.aliases ==> e.aliases[k] == d.aliases[k])
      && BatchOn(e, alias).Err?
  {
  }

  /** `renameBatchAlias` to a free name moves the path there; renaming back gives the data back. */
  lemma RenameBatchAliasThenBack(d: Data, current: string, newAlias: string)
    requires current in d.aliases && newAlias !in d.aliases
    ensures RenameBatchAliasOn(d, Str(current), Str(newAlias)).Ok?
    ensures var e := RenameBatchAliasOn(d, Str(current), Str(newAlias)).value;
      current !in e.aliases && e.aliases[newAlias] == d.aliases[current]
      && RenameBatchAliasOn(e, Str(newAlias), Str(current)) == Ok(d)
  {
    MoveKeyBack(d.aliases, current, newAlias);
  }

  /** Renaming onto a name in use overwrites that alias; renaming to the same name deletes it. */
  lemma RenameBatchAliasCollisions(d: Data, current: string, newAlias: string)
    requires current in d.aliases && newAlias in d.aliases
    ensures RenameBatchAliasOn(d, Str(current), Str(newAlias)).Ok?
    ensures var e := RenameBatchAliasOn(d, Str(current), Str(newAlias)).value;
      current !in e.aliases && |e.aliases.Keys| == |d.aliases.Keys| - 1
      && (current != newAlias ==> e.aliases[newAlias] == d.aliases[current])
  {
    if current == newAlias {
      MoveKeyToItself(d.aliases, current);
    } else {
      MoveKeyMoves(d.aliases, current, newAlias);
      assert MoveKey(d.aliases, current, newAlias).Keys == d.aliases.Keys - {current};
    }
  }
}
