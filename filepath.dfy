/**
 * cmdModules/core/filePath/commands.js: named file paths ("aliases"), each
 * either one path or an alias set (a list of paths), plus the current and
 * previous target and source locations. Every command runs its checks in an
 * if/else-if chain that throws before anything is changed, then edits the
 * module-level `data` object in place.
 *
 * Each command is stated twice: as a function from the old `data` to the
 * outcome (`...On`), about which the lemmas speak, and as a method of `Store`
 * that changes the fields and is proved to agree with that function.
 */
module FilePath {
  import opened Wrappers
  import opened Arguments
  import opened Tables
  import Output
  import Core

  /** A stored alias: one path, or an alias set (a JSON array of paths). */
  datatype AliasValue = Single(path: string) | Set(paths: seq<string>)

  /** A `{alias, path}` record as `target` and `source` hold it. */
  datatype Location = Location(alias: string, path: string)

  /** The module's `data` object; `{}` is None. */
  datatype Data = Data(verbose: bool, target: Location, source: Option<Location>,
                       previousTarget: Option<Location>, previousSource: Option<Location>,
                       aliases: map<string, AliasValue>)

  /** `initialData` of the module's init file, for the directory ncline runs from. */
  function Initial(nclinePath: string): Data
  {
    Data(false, Location("self", nclinePath), None, None, None, map["self" := Single(nclinePath)])
  }

  /** The message of the error a command throws. */
  function Fail<T>(message: string): Result<T>
  {
    Err(Output.ThrowError(message))
  }

  /** A Boolean setting as `isBoolean` and `booleanValue` see a string argument. */
  function Setting(s: string): Core.Value
  {
    Core.Text(s)
  }

  const BooleanRequired: string :=
    "You must provide a string representing a Boolean value (true/false, yes/no, or y/n)"

  /** `setPathVerbose`: only a string that reads as a Boolean is stored, as its Boolean value. */
  function SetPathVerboseOn(d: Data, setting: Arg): Result<Data>
  {
    if setting.Null? || !Core.IsBoolean(Setting(setting.s)) then Fail(BooleanRequired)
    else Ok(d.(verbose := Core.BooleanValue(Setting(setting.s))))
  }

  /** The checks `createAlias` and `createAliasSet` share; None when the alias may be created. */
  function CreateFailure(d: Data, alias: Arg, filepath: Arg): (r: Option<string>)
    ensures r.None? <==> alias.Str? && filepath.Str? && alias.s !in d.aliases
  {
    if alias.Null? || filepath.Null? then Some("The alias and filepath parameters must be defined.")
    else if alias.s in d.aliases then
      if d.aliases[alias.s].Set? then
        Some("Alias '" + alias.s + "' already exists as an alias set; use updateAliasSet or deleteAliasSet to change.")
      else
        Some("Alias '" + alias.s + "' already exists; use updateAlias or deleteAlias to change.")
    else None
  }

  /** `createAlias`. */
  function CreateAliasOn(d: Data, alias: Arg, filepath: Arg): Result<Data>
  {
    match CreateFailure(d, alias, filepath)
    case Some(m) => Fail(m)
    case None => Ok(d.(aliases := d.aliases[alias.s := Single(filepath.s)]))
  }

  /** `createAliasSet`: the new set holds the one path. */
  function CreateAliasSetOn(d: Data, alias: Arg, filepath: Arg): Result<Data>
  {
    match CreateFailure(d, alias, filepath)
    case Some(m) => Fail(m)
    case None => Ok(d.(aliases := d.aliases[alias.s := Set([filepath.s])]))
  }

  /** The checks of `updateAlias`; None when `alias` names a single path. */
  function UpdateFailure(d: Data, alias: Arg, filepath: Arg): (r: Option<string>)
    ensures r.None? <==> alias.Str? && filepath.Str? && alias.s in d.aliases && d.aliases[alias.s].Single?
  {
    if alias.Null? || filepath.Null? then Some("The alias and filepath parameters must be defined.")
    else if alias.s !in d.aliases then Some("Alias '" + alias.s + "' not found; use createAlias to create.")
    else if d.aliases[alias.s].Set? then
      Some("Alias '" + alias.s + "' belongs to an alias set; use updateAliasSet to modify.")
    else None
  }

  /** `updateAlias`. */
  function UpdateAliasOn(d: Data, alias: Arg, filepath: Arg): Result<Data>
  {
    match UpdateFailure(d, alias, filepath)
    case Some(m) => Fail(m)
    case None => Ok(d.(aliases := d.aliases[alias.s := Single(filepath.s)]))
  }

  /** The checks of `renameAlias` (`wantSet` false) and `renameAliasSet` (`wantSet` true). */
  function RenameFailure(d: Data, current: Arg, newAlias: Arg, wantSet: bool): (r: Option<string>)
    ensures r.None? <==> current.Str? && newAlias.Str? && current.s in d.aliases && d.aliases[current.s].Set? == wantSet
  {
    if current.Null? || newAlias.Null? then Some("The current and new alias names must be defined.")
    else if current.s !in d.aliases then
      if wantSet then Some("Alias '" + current.s + "' not found; use createAliasSet to create.")
      else Some("Alias '" + current.s + "' not found; use createAlias to create.")
    else if d.aliases[current.s].Set? != wantSet then
      if wantSet then Some("Alias '" + current.s + "' does not match an alias set; use renameAlias to modify.")
      else Some("Alias '" + current.s + "' belongs to an alias set; use renameAliasSet to modify.")
    else None
  }

  /** `renameAlias`: the value is copied to the new name, then the old name deleted. */
  function RenameAliasOn(d: Data, current: Arg, newAlias: Arg): Result<Data>
  {
    match RenameFailure(d, current, newAlias, false)
    case Some(m) => Fail(m)
    case None => Ok(d.(aliases := MoveKey(d.aliases, current.s, newAlias.s)))
  }

  /** `renameAliasSet`: as `renameAlias`, for a set. */
  function RenameAliasSetOn(d: Data, current: Arg, newAlias: Arg): Result<Data>
  {
    match RenameFailure(d, current, newAlias, true)
    case Some(m) => Fail(m)
    case None => Ok(d.(aliases := MoveKey(d.aliases, current.s, newAlias.s)))
  }

  /** The checks of `deleteAlias` (`wantSet` false) and `deleteAliasSet` (`wantSet` true). */
  function DeleteFailure(d: Data, alias: Arg, wantSet: bool): (r: Option<string>)
    ensures r.None? <==> alias.Str? && alias.s in d.aliases && d.aliases[alias.s].Set? == wantSet
  {
    if alias.Null? then Some("The alias parameter must be defined.")
    else if alias.s !in d.aliases then Some("Alias '" + alias.s + "' not found.")
    else if d.aliases[alias.s].Set? != wantSet then
      if wantSet then Some("Alias '" + alias.s + "' does not match an alias set.")
      else Some("Alias '" + alias.s + "' belongs to an alias set; use deleteAliasSet to modify.")
    else None
  }

  /** `deleteAlias`. */
  function DeleteAliasOn(d: Data, alias: Arg): Result<Data>
  {
    match DeleteFailure(d, alias, false)
    case Some(m) => Fail(m)
    case None => Ok(d.(aliases := d.aliases - {alias.s}))
  }

  /** `deleteAliasSet`. */
  function DeleteAliasSetOn(d: Data, alias: Arg): Result<Data>
  {
    match DeleteFailure(d, alias, true)
    case Some(m) => Fail(m)
    case None => Ok(d.(aliases := d.aliases - {alias.s}))
  }

  predicate IsSetAction(action: string)
  {
    action == "add" || action == "update" || action == "delete"
  }

  const SetParametersMissing: string :=
    "The alias, action ('add', 'update', or 'delete') and filepath parameters must be defined."
  const UnknownSetAction: string := "The action must be either 'add', 'update' or 'delete'."
  const ReplacementMissing: string :=
    "When using the 'update' action, you must provide 2 filepaths: the one being replaced and the replacement"

  /** The checks of `updateAliasSet` that come before the set is looked into, in the source's order. */
  function UpdateSetFailure(d: Data, alias: Arg, action: Arg, filepath: Arg, replacement: Arg): (r: Option<string>)
    ensures r.None? <==>
      alias.Str? && action.Str? && filepath.Str? && IsSetAction(action.s)
      && (action.s == "update" ==> Truthy(replacement))
      && alias.s in d.aliases && d.aliases[alias.s].Set?
  {
    if alias.Null? || action.Null? || filepath.Null? then Some(SetParametersMissing)
    else if !IsSetAction(action.s) then Some(UnknownSetAction)
    else if action.s == "update" && !Truthy(replacement) then Some(ReplacementMissing)
    else if alias.s !in d.aliases then Some("Alias set '" + alias.s + "' not found; use createAliasSet to create.")
    else if d.aliases[alias.s].Set? then None
    else Some("Alias '" + alias.s + "' does not match an alias set.")
  }

  /**
   * `updateAliasSet`: `add` pushes the path; `update` replaces and `delete`
   * splices out the first occurrence of it, which must exist.
   */
  function UpdateAliasSetOn(d: Data, alias: Arg, action: Arg, filepath: Arg, replacement: Arg): Result<Data>
  {
    match UpdateSetFailure(d, alias, action, filepath, replacement)
    case Some(m) => Fail(m)
    case None =>
      var paths := d.aliases[alias.s].paths;
      var i := IndexOf(paths, filepath.s);
      if action.s == "add" then Ok(d.(aliases := d.aliases[alias.s := Set(paths + [filepath.s])]))
      else if i == -1 then Fail("Path '" + filepath.s + "' not found in alias set '" + alias.s + "'.")
      else if action.s == "update" then Ok(d.(aliases := d.aliases[alias.s := Set(paths[i := replacement.s])]))
      else Ok(d.(aliases := d.aliases[alias.s := Set(RemoveAt(paths, i))]))
  }

  /**
   * The shared check of `target` and `source` when an alias is given; `role`
   * is the word the message uses. None when the alias names a single path.
   */
  function LocateFailure(d: Data, alias: string, role: string): (r: Option<string>)
    ensures r.None? <==> alias in d.aliases && d.aliases[alias].Single?
  {
    if alias !in d.aliases then
      Some("Filepath alias '" + alias + "' not recognized; create it with 'createAlias {alias} {filepath}' ")
    else if d.aliases[alias].Set? then
      Some("Alias '" + alias + "' refers to an alias set; which cannot be a " + role + ".")
    else None
  }

  /** `target`: with an alias, the old target is kept as the previous one; without, nothing changes. */
  function TargetOn(d: Data, alias: Arg): Result<Data>
  {
    if !Truthy(alias) then Ok(d)
    else match LocateFailure(d, alias.s, "target")
      case Some(m) => Fail(m)
      case None => Ok(d.(previousTarget := Some(d.target), target := Location(alias.s, d.aliases[alias.s].path)))
  }

  /** `source`: as `target`, for the source location. */
  function SourceOn(d: Data, alias: Arg): Result<Data>
  {
    if !Truthy(alias) then Ok(d)
    else match LocateFailure(d, alias.s, "source")
      case Some(m) => Fail(m)
      case None => Ok(d.(previousSource := d.source, source := Some(Location(alias.s, d.aliases[alias.s].path))))
  }

  /** What `target` shows when no alias is given. */
  function TargetNotice(d: Data): string
  {
    "Current target alias:path is '" + d.target.alias + "': " + d.target.path
  }

  /** What `source` shows when no alias is given. */
  function SourceNotice(d: Data): string
  {
    match d.source
    case Some(l) => "Current source alias:path is '" + l.alias + "': " + l.path
    case None => "Currently no source alias/path is defined."
  }

  /** `clearSource`. */
  function ClearSourceOn(d: Data): Data
  {
    d.(previousSource := d.source, source := None)
  }

  /** The `getAlias` hook: the stored value as it is. */
  function GetAliasOn(d: Data, alias: Arg): (r: Result<AliasValue>)
    ensures r.Ok? <==> alias.Str? && alias.s in d.aliases
    ensures r.Ok? ==> r.value == d.aliases[alias.s]
  {
    if alias.Null? then Fail("The alias parameter must be defined.")
    else if alias.s !in d.aliases then Fail("Alias '" + alias.s + "' not found.")
    else Ok(d.aliases[alias.s])
  }

  /** A command's outcome and the state it leaves, as its specification function has them. */
  predicate Done(r: Result<()>, before: Data, after: Data, spec: Result<Data>)
  {
    match spec
    case Err(m) => r == Err(m) && after == before
    case Ok(d) => r == Ok(()) && after == d
  }

  /** The module-level `data` object and the commands that update it. */
  class Store {
    var verbose: bool
    var target: Location
    var source: Option<Location>
    var previousTarget: Option<Location>
    var previousSource: Option<Location>
    var aliases: map<string, AliasValue>

    function State(): Data
      reads this
    {
      Data(verbose, target, source, previousTarget, previousSource, aliases)
    }

    /** The data a fresh installation starts with. */
    constructor(nclinePath: string)
      ensures State() == Initial(nclinePath)
    {
      verbose := false;
      target := Location("self", nclinePath);
      source := None;
      previousTarget := None;
      previousSource := None;
      aliases := map["self" := Single(nclinePath)];
    }

    method SetPathVerbose(setting: Arg) returns (r: Result<()>)
      modifies this
      ensures Done(r, old(State()), State(), SetPathVerboseOn(old(State()), setting))
    {
      if setting.Null? || !Core.IsBoolean(Setting(setting.s)) {
        return Fail(BooleanRequired);
      }
      verbose := Core.BooleanValue(Setting(setting.s));
      return Ok(());
    }

    method CreateAlias(alias: Arg, filepath: Arg) returns (r: Result<()>)
      modifies this
      ensures Done(r, old(State()), State(), CreateAliasOn(old(State()), alias, filepath))
    {
      var failure := CreateFailure(State(), alias, filepath);
      if failure.Some? {
        return Fail(failure.value);
      }
      aliases := aliases[alias.s := Single(filepath.s)];
      return Ok(());
    }

    method UpdateAlias(alias: Arg, filepath: Arg) returns (r: Result<()>)
      modifies this
      ensures Done(r, old(State()), State(), UpdateAliasOn(old(State()), alias, filepath))
    {
      var failure := UpdateFailure(State(), alias, filepath);
      if failure.Some? {
        return Fail(failure.value);
      }
      aliases := aliases[alias.s := Single(filepath.s)];
      return Ok(());
    }

    method RenameAlias(current: Arg, newAlias: Arg) returns (r: Result<()>)
      modifies this
      ensures Done(r, old(State()), State(), RenameAliasOn(old(State()), current, newAlias))
    {
      var failure := RenameFailure(State(), current, newAlias, false);
      if failure.Some? {
        return Fail(failure.value);
      }
      aliases := aliases[newAlias.s := aliases[current.s]];
      aliases := aliases - {current.s};
      return Ok(());
    }

    method DeleteAlias(alias: Arg) returns (r: Result<()>)
      modifies this
      ensures Done(r, old(State()), State(), DeleteAliasOn(old(State()), alias))
    {
      var failure := DeleteFailure(State(), alias, false);
      if failure.Some? {
        return Fail(failure.value);
      }
      aliases := aliases - {alias.s};
      return Ok(());
    }

    method CreateAliasSet(alias: Arg, filepath: Arg) returns (r: Result<()>)
      modifies this
      ensures Done(r, old(State()), State(), CreateAliasSetOn(old(State()), alias, filepath))
    {
      var failure := CreateFailure(State(), alias, filepath);
      if failure.Some? {
        return Fail(failure.value);
      }
      aliases := aliases[alias.s := Set([filepath.s])];
      return Ok(());
    }

    method UpdateAliasSet(alias: Arg, action: Arg, filepath: Arg, replacement: Arg) returns (r: Result<()>)
      modifies this
      ensures Done(r, old(State()), State(), UpdateAliasSetOn(old(State()), alias, action, filepath, replacement))
    {
      var failure := UpdateSetFailure(State(), alias, action, filepath, replacement);
      if failure.Some? {
        return Fail(failure.value);
      }
      var paths := aliases[alias.s].paths;
      if action.s == "add" {
        aliases := aliases[alias.s := Set(paths + [filepath.s])];
        return Ok(());
      }
      var pathIndex := IndexOf(paths, filepath.s);
      if pathIndex == -1 {
        return Fail("Path '" + filepath.s + "' not found in alias set '" + alias.s + "'.");
      }
      if action.s == "update" {
        aliases := aliases[alias.s := Set(paths[pathIndex := replacement.s])];
      } else {
        aliases := aliases[alias.s := Set(RemoveAt(paths, pathIndex))];
      }
      return Ok(());
    }

    method RenameAliasSet(current: Arg, newAlias: Arg) returns (r: Result<()>)
      modifies this
      ensures Done(r, old(State()), State(), RenameAliasSetOn(old(State()), current, newAlias))
    {
      var failure := RenameFailure(State(), current, newAlias, true);
      if failure.Some? {
        return Fail(failure.value);
      }
      aliases := aliases[newAlias.s := aliases[current.s]];
      aliases := aliases - {current.s};
      return Ok(());
    }

    method DeleteAliasSet(alias: Arg) returns (r: Result<()>)
      modifies this
      ensures Done(r, old(State()), State(), DeleteAliasSetOn(old(State()), alias))
    {
      var failure := DeleteFailure(State(), alias, true);
      if failure.Some? {
        return Fail(failure.value);
      }
      aliases := aliases - {alias.s};
      return Ok(());
    }

    /** `target`; `notice` is what it shows when called without an alias. */
    method Target(alias: Arg) returns (r: Result<()>, notice: Option<string>)
      modifies this
      ensures Done(r, old(State()), State(), TargetOn(old(State()), alias))
      ensures notice == if Truthy(alias) then None else Some(TargetNotice(old(State())))
    {
      if !Truthy(alias) {
        return Ok(()), Some(TargetNotice(State()));
      }
      var failure := LocateFailure(State(), alias.s, "target");
      if failure.Some? {
        return Fail(failure.value), None;
      }
      previousTarget := Some(target);
      target := Location(alias.s, aliases[alias.s].path);
      return Ok(()), None;
    }

    /** `source`; `notice` is what it shows when called without an alias. */
    method Source(alias: Arg) returns (r: Result<()>, notice: Option<string>)
      modifies this
      ensures Done(r, old(State()), State(), SourceOn(old(State()), alias))
      ensures notice == if Truthy(alias) then None else Some(SourceNotice(old(State())))
    {
      if !Truthy(alias) {
        return Ok(()), Some(SourceNotice(State()));
      }
      var failure := LocateFailure(State(), alias.s, "source");
      if failure.Some? {
        return Fail(failure.value), None;
      }
      previousSource := source;
      source := Some(Location(alias.s, aliases[alias.s].path));
      return Ok(()), None;
    }

    method ClearSource()
      modifies this
      ensures State() == ClearSourceOn(old(State()))
    {
      previousSource := source;
      source := None;
    }

    /** The `getAlias` hook. */
    method GetAlias(alias: Arg) returns (r: Result<AliasValue>)
      ensures r.Ok? <==> alias.Str? && alias.s in aliases
      ensures r.Ok? ==> r.value == aliases[alias.s]
      ensures r == GetAliasOn(State(), alias)
    {
      if alias.Null? {
        return Fail("The alias parameter must be defined.");
      } else if alias.s !in aliases {
        return Fail("Alias '" + alias.s + "' not found.");
      }
      return Ok(aliases[alias.s]);
    }

    /** The `getTargetPath` hook. */
    method GetTargetPath() returns (path: string)
      ensures path == target.path
    {
      return target.path;
    }
  }

  /** Everything but the alias table is the same in both. */
  predicate SameButAliases(d: Data, e: Data)
  {
    e.(aliases := d.aliases) == d
  }

  /** `setPathVerbose` succeeds exactly on Boolean strings and changes nothing else. */
  lemma SetPathVerboseEffect(d: Data, setting: Arg)
    ensures SetPathVerboseOn(d, setting).Ok? <==> setting.Str? && Core.IsBoolean(Setting(setting.s))
    ensures SetPathVerboseOn(d, setting).Ok? ==>
      SetPathVerboseOn(d, setting).value == d.(verbose := Core.BooleanValue(Setting(setting.s)))
  {
  }

  /** `createAlias` adds exactly the new key; `deleteAlias` then gives the data back. */
  lemma CreateAliasThenDelete(d: Data, alias: string, filepath: string)
    requires alias !in d.aliases
    ensures CreateAliasOn(d, Str(alias), Str(filepath)).Ok?
    ensures var e := CreateAliasOn(d, Str(alias), Str(filepath)).value;
      SameButAliases(d, e) && e.aliases.Keys == d.aliases.Keys + {alias}
      && e.aliases[alias] == Single(filepath)
      && (forall k :: k in d.aliases ==> e.aliases[k] == d.aliases[k])
      && DeleteAliasOn(e, Str(alias)) == Ok(d)
  {
    var e := CreateAliasOn(d, Str(alias), Str(filepath)).value;
    assert e.aliases - {alias} == d.aliases;
  }

  /** `createAliasSet` adds a one-path set under the new key; `deleteAliasSet` then gives the data back. */
  lemma CreateAliasSetThenDelete(d: Data, alias: string, filepath: string)
    requires alias !in d.aliases
    ensures CreateAliasSetOn(d, Str(alias), Str(filepath)).Ok?
    ensures var e := CreateAliasSetOn(d, Str(alias), Str(filepath)).value;
      SameButAliases(d, e) && e.aliases.Keys == d.aliases.Keys + {alias}
      && e.aliases[alias] == Set([filepath])
      && DeleteAliasSetOn(e, Str(alias)) == Ok(d)
  {
    var e := CreateAliasSetOn(d, Str(alias), Str(filepath)).value;
    assert e.aliases - {alias} == d.aliases;
  }

  /** A name that is taken, as a path or a set, cannot be created again, by either command. */
  lemma CreateTakenFails(d: Data, alias: string, filepath: Arg)
    requires alias in d.aliases
    ensures CreateAliasOn(d, Str(alias), filepath).Err?
    ensures CreateAliasSetOn(d, Str(alias), filepath).Err?
  {
  }

  /** `updateAlias` replaces only that value, and `getAlias` then reads the new path. */
  lemma UpdateAliasThenGet(d: Data, alias: string, filepath: string)
    requires alias in d.aliases && d.aliases[alias].Single?
    ensures UpdateAliasOn(d, Str(alias), Str(filepath)).Ok?
    ensures var e := UpdateAliasOn(d, Str(alias), Str(filepath)).value;
      SameButAliases(d, e) && e.aliases.Keys == d.aliases.Keys
      && (forall k :: k in d.aliases && k != alias ==> e.aliases[k] == d.aliases[k])
      && GetAliasOn(e, Str(alias)) == Ok(Single(filepath))
  {
  }

  /** `deleteAlias` removes only a single path, and `getAlias` no longer finds it. */
  lemma DeleteAliasEffect(d: Data, alias: Arg)
    ensures DeleteAliasOn(d, alias).Ok? <==> alias.Str? && alias.s in d.aliases && d.aliases[alias.s].Single?
    ensures DeleteAliasOn(d, alias).Ok? ==>
      var e := DeleteAliasOn(d, alias).value;
      SameButAliases(d, e) && e.aliases.Keys == d.aliases.Keys - {alias.s}
      && (forall k :: k in e.aliases ==> e.aliases[k] == d.aliases[k])
      && GetAliasOn(e, alias).Err?
  {
  }

  /** `renameAlias` to a free name moves the path there; renaming back gives the data back. */
  lemma RenameAliasThenBack(d: Data, current: string, newAlias: string)
    requires current in d.aliases && d.aliases[current].Single? && newAlias !in d.aliases
    ensures RenameAliasOn(d, Str(current), Str(newAlias)).Ok?
    ensures var e := RenameAliasOn(d, Str(current), Str(newAlias)).value;
      SameButAliases(d, e) && current !in e.aliases && e.aliases[newAlias] == d.aliases[current]
      && RenameAliasOn(e, Str(newAlias), Str(current)) == Ok(d)
  {
    MoveKeyBack(d.aliases, current, newAlias);
  }

  /**
   * No check stops a rename onto a name in use: that alias's value, a path or a
   * whole set, is overwritten.
   */
  lemma RenameAliasOverwrites(d: Data, current: string, newAlias: string)
    requires current in d.aliases && d.aliases[current].Single? && newAlias in d.aliases && newAlias != current
    ensures RenameAliasOn(d, Str(current), Str(newAlias)).Ok?
    ensures var e := RenameAliasOn(d, Str(current), Str(newAlias)).value;
      e.aliases[newAlias] == d.aliases[current] && |e.aliases.Keys| == |d.aliases.Keys| - 1
  {
    MoveKeyMoves(d.aliases, current, newAlias);
    assert MoveKey(d.aliases, current, newAlias).Keys == d.aliases.Keys - {current};
  }

  /** Renaming an alias or an alias set to its own name deletes it, because the delete runs after the copy. */
  lemma RenameToItselfDeletes(d: Data, alias: string)
    requires alias in d.aliases
    ensures d.aliases[alias].Single? ==> RenameAliasOn(d, Str(alias), Str(alias)) == Ok(d.(aliases := d.aliases - {alias}))
    ensures d.aliases[alias].Set? ==> RenameAliasSetOn(d, Str(alias), Str(alias)) == Ok(d.(aliases := d.aliases - {alias}))
  {
    MoveKeyToItself(d.aliases, alias);
  }

  /** `renameAliasSet` to a free name moves the set there; renaming back gives the data back. */
  lemma RenameAliasSetThenBack(d: Data, current: string, newAlias: string)
    requires current in d.aliases && d.aliases[current].Set? && newAlias !in d.aliases
    ensures RenameAliasSetOn(d, Str(current), Str(newAlias)).Ok?
    ensures var e := RenameAliasSetOn(d, Str(current), Str(newAlias)).value;
      SameButAliases(d, e) && current !in e.aliases && e.aliases[newAlias] == d.aliases[current]
      && RenameAliasSetOn(e, Str(newAlias), Str(current)) == Ok(d)
  {
    MoveKeyBack(d.aliases, current, newAlias);
  }

  /** The single-path commands refuse sets and the set commands refuse single paths. */
  lemma KindsKeptApart(d: Data, alias: string, other: Arg)
    requires alias in d.aliases
    ensures d.aliases[alias].Set? ==>
      UpdateAliasOn(d, Str(alias), other).Err? && RenameAliasOn(d, Str(alias), other).Err?
      && DeleteAliasOn(d, Str(alias)).Err?
      && (alias != [] ==> TargetOn(d, Str(alias)).Err? && SourceOn(d, Str(alias)).Err?)
    ensures d.aliases[alias].Single? ==>
      RenameAliasSetOn(d, Str(alias), other).Err? && DeleteAliasSetOn(d, Str(alias)).Err?
  {
    if d.aliases[alias].Set? {
      SetRefusedBySingleCommands(d, alias, other);
      if alias != [] {
        SetRefusedByLocate(d, alias);
      }
    } else {
      SingleRefusedBySetCommands(d, alias, other);
    }
  }

  lemma SetRefusedBySingleCommands(d: Data, alias: string, other: Arg)
    requires alias in d.aliases && d.aliases[alias].Set?
    ensures UpdateAliasOn(d, Str(alias), other).Err? && RenameAliasOn(d, Str(alias), other).Err?
      && DeleteAliasOn(d, Str(alias)).Err?
  {
    assert UpdateFailure(d, Str(alias), other).Some?;
    assert RenameFailure(d, Str(alias), other, false).Some?;
    assert DeleteFailure(d, Str(alias), false).Some?;
  }

  lemma SingleRefusedBySetCommands(d: Data, alias: string, other: Arg)
    requires alias in d.aliases && d.aliases[alias].Single?
    ensures RenameAliasSetOn(d, Str(alias), other).Err? && DeleteAliasSetOn(d, Str(alias)).Err?
  {
    assert RenameFailure(d, Str(alias), other, true).Some?;
    assert DeleteFailure(d, Str(alias), true).Some?;
  }

  lemma SetRefusedByLocate(d: Data, alias: string)
    requires alias in d.aliases && d.aliases[alias].Set? && alias != []
    ensures TargetOn(d, Str(alias)).Err? && SourceOn(d, Str(alias)).Err?
  {
    assert Truthy(Str(alias));
  }

  /** `add` appends the path to the set; deleting that path afterwards gives the data back when it was new. */
  lemma AddThenDeletePath(d: Data, alias: string, path: string, replacement: Arg)
    requires alias in d.aliases && d.aliases[alias].Set? && path !in d.aliases[alias].paths
    ensures UpdateAliasSetOn(d, Str(alias), Str("add"), Str(path), replacement).Ok?
    ensures var e := UpdateAliasSetOn(d, Str(alias), Str("add"), Str(path), replacement).value;
      SameButAliases(d, e) && e.aliases == d.aliases[alias := Set(d.aliases[alias].paths + [path])]
      && UpdateAliasSetOn(e, Str(alias), Str("delete"), Str(path), replacement) == Ok(d)
  {
    var paths := d.aliases[alias].paths;
    AppendThenRemove(paths, path);
    var e := UpdateAliasSetOn(d, Str(alias), Str("add"), Str(path), replacement).value;
    assert e.aliases[alias := Set(paths)] == d.aliases;
  }

  /**
   * `update` on a path in the set replaces its first occurrence in place and
   * keeps the length; a path not in the set is an error.
   */
  lemma UpdatePathInSet(d: Data, alias: string, path: string, replacement: string)
    requires alias in d.aliases && d.aliases[alias].Set? && replacement != []
    ensures var paths := d.aliases[alias].paths;
      var updated := UpdateAliasSetOn(d, Str(alias), Str("update"), Str(path), Str(replacement));
      && (updated.Ok? <==> path in paths)
      && (path in paths ==>
            var i := IndexOf(paths, path);
            && SameButAliases(d, updated.value)
            && updated.value.aliases == d.aliases[alias := Set(paths[i := replacement])]
            && |updated.value.aliases[alias].paths| == |paths|
            && path !in paths[..i])
  {
    assert "update" != "add";
    assert UpdateSetFailure(d, Str(alias), Str("update"), Str(path), Str(replacement)).None?;
  }

  /**
   * `delete` splices out the first occurrence of a path in the set, one
   * element fewer and one copy of the path fewer; a path not in the set is
   * an error.
   */
  lemma DeletePathInSet(d: Data, alias: string, path: string, replacement: Arg)
    requires alias in d.aliases && d.aliases[alias].Set?
    ensures var paths := d.aliases[alias].paths;
      var deleted := UpdateAliasSetOn(d, Str(alias), Str("delete"), Str(path), replacement);
      && (deleted.Ok? <==> path in paths)
      && (path in paths ==>
            var i := IndexOf(paths, path);
            && SameButAliases(d, deleted.value)
            && deleted.value.aliases == d.aliases[alias := Set(RemoveAt(paths, i))]
            && |deleted.value.aliases[alias].paths| == |paths| - 1
            && multiset(deleted.value.aliases[alias].paths) == multiset(paths) - multiset{path})
  {
    assert "delete" != "add" && "delete" != "update";
    assert UpdateSetFailure(d, Str(alias), Str("delete"), Str(path), replacement).None?;
    var paths := d.aliases[alias].paths;
    if path in paths {
      RemoveAtMultiset(paths, IndexOf(paths, path));
    }
  }

  /** `update` without a replacement, or with an empty one, is refused before the set is looked at. */
  lemma UpdateNeedsReplacement(d: Data, alias: string, path: string, replacement: Arg)
    requires !Truthy(replacement)
    ensures UpdateAliasSetOn(d, Str(alias), Str("update"), Str(path), replacement)
         == Fail(ReplacementMissing)
  {
  }

  /**
   * `target` with a single-path alias: the old target becomes the previous
   * one, the new target records the alias and its path, nothing else changes.
   */
  lemma TargetEffect(d: Data, alias: string)
    requires alias in d.aliases && d.aliases[alias].Single? && alias != []
    ensures TargetOn(d, Str(alias)).Ok?
    ensures var e := TargetOn(d, Str(alias)).value;
      e.target == Location(alias, d.aliases[alias].path) && e.previousTarget == Some(d.target)
      && e.aliases == d.aliases && e.source == d.source && e.previousSource == d.previousSource
      && e.verbose == d.verbose
  {
  }

  /** `source` with a single-path alias, the counterpart of `target`. */
  lemma SourceEffect(d: Data, alias: string)
    requires alias in d.aliases && d.aliases[alias].Single? && alias != []
    ensures SourceOn(d, Str(alias)).Ok?
    ensures var e := SourceOn(d, Str(alias)).value;
      e.source == Some(Location(alias, d.aliases[alias].path)) && e.previousSource == d.source
      && e.aliases == d.aliases && e.target == d.target && e.previousTarget == d.previousTarget
      && e.verbose == d.verbose
  {
  }

  /** Without an alias (null or empty) `target` and `source` change nothing. */
  lemma LocateWithoutAlias(d: Data, alias: Arg)
    requires !Truthy(alias)
    ensures TargetOn(d, alias) == Ok(d) && SourceOn(d, alias) == Ok(d)
  {
  }

  /** `clearSource` keeps the old source as the previous one; after `source` it restores the previous pair's first half. */
  lemma SourceThenClear(d: Data, alias: string)
    requires alias in d.aliases && d.aliases[alias].Single? && alias != []
    ensures SourceOn(d, Str(alias)).Ok?
    ensures var e := ClearSourceOn(SourceOn(d, Str(alias)).value);
      e.source == None && e.previousSource == Some(Location(alias, d.aliases[alias].path))
      && e.aliases == d.aliases && e.target == d.target
  {
  }
}
