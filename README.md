# ncline, modelled in Dafny

ncline is an interactive Node.js shell. At start-up it loads command modules,
registers each exported function as a command under a name, and warns when a
later definition replaces an earlier one. It then reads lines from the user.
A line's first word names the command. The rest is parsed into arguments:
space-separated words, double-quoted values that keep their spaces, or a
bracketed list of `name:value` tokens matched to the function's parameter
names. The command is called, and any error it throws is printed.

This project models:

- the shared library `lib/core.js`: the prompt, regular-expression escaping,
  the loose Boolean reading of settings, sorting an object's keys, the
  argument parser, signatures, and the Windows terminal prefix;
- the registration loop, the tab completer and the line handler of `ncline.js`;
- the watcher registry of `lib/watchers.js`;
- the command modules that keep their own data and build shell statements:
  - file-path aliases, the target and the source (`filePath`);
  - web aliases and the browser statement (`browser`);
  - batch-file aliases (`batch`);
  - Grunt tasks run in a console (`grunt`).

Files and modules:

| file | module | models |
|---|---|---|
| wrappers.dfy | `Wrappers`, `Output` | `Option`, `Result`, and the message `output.throwError` throws |
| strings.dfy | `Strings` | whitespace, trimming, splitting, joining, find and replace, string order |
| core.dfy | `Core` | `lib/core.js` apart from the argument parser |
| arguments.dfy | `Arguments` | `transformQuotedValues`, `parseNamedArguments`, `generateArgumentsArray` |
| tables.dfy | `Tables` | the key and array edits the commands share: rename a key, `indexOf`, `splice` |
| shell.dfy | `Shell` | command registration, completion and the line handler (`ncline.js`) |
| watchers.dfy | `Watchers` | `lib/watchers.js` |
| filepath.dfy | `FilePath` | `cmdModules/core/filePath/commands.js` |
| browser.dfy | `Browser` | `cmdModules/public/browser/commands.js` |
| batch.dfy | `Batch` | `cmdModules/public/batch/commands.js` |
| grunt.dfy | `Grunt` | `cmdModules/public/grunt/commands.js` |

Modelling choices:

- JavaScript values that reach a command are `Arg = Null | Str(s)`. The
  commands test `== null`, so `undefined` and `null` are the same value here.
- A thrown error is an `Err(message)`, with the text `output.throwError` prints.
- Each command module keeps its data in a module-level object that its commands
  change in place. That object is modelled as a class: `FilePath.Store`,
  `Browser.Sites` and `Batch.Batches`. Each class has one field per data member.
- Each command of those classes is a method. The method is proved against a
  function on the data value (`CreateAliasOn`, `UpdateWebAliasSetOn`, …), and
  the lemmas are stated about those functions.
- `ncline.js` keeps its command table, catalog and warnings in module-level
  variables. These are modelled by `Shell.Session`.
- The platform `os.platform()` reports is a parameter.
- Calls to `exec` are left out. A command that would run a statement returns it.

## Model

| member | source | states |
|---|---|---|
| Core.GenerateCommandPrompt | lib/core.js:17-27 | the prompt ends with `target -> <target alias> >>`, and starts with `source -> <alias>, ` exactly when a source alias is set |
| Core.IsBoolean | lib/core.js:33-54 | a Boolean always passes, and so does a blank text (it is loosely equal to 0); the one-character cases are stated by `DigitTextBoolean` and `LetterTextBoolean` |
| Core.BooleanValue | lib/core.js:55-76 | only a value `isBoolean` accepts can read as true, and a blank text reads as false; see also `TrueValuesAreBooleans` |
| Core.EscapeRegExp | lib/core.js:29-31 | the result is as long as the input plus one per special character, and dropping the added backslashes gives the input back |
| Core.EscapeRegExpChar | lib/core.js:29-31 | a single character escapes to a backslash and itself when it is special, and to itself otherwise |
| Core.EscapeRegExpAppend | lib/core.js:29-31 | escaping a concatenation is escaping each part: together with `EscapeRegExpChar`, each character is escaped where it stands and nothing else is added |
| Core.TrueValuesAreBooleans | lib/core.js:33-76 | every value `booleanValue` reads as true is one `isBoolean` accepts |
| Core.DigitTextBoolean | lib/core.js:33-76 | of the one-digit settings, only "0" and "1" are Booleans, and only "1" is true |
| Core.LetterTextBoolean | lib/core.js:33-76 | of the one-letter settings, only y, Y, n and N are Booleans, and only y and Y are true |
| Core.DigitNumeral | lib/core.js:34 | a one-digit text compared loosely with a number reads as its digit |
| Core.LetterIsNaN | lib/core.js:34 | a one-letter word is not a number, so it is never loosely equal to 0 or 1 |
| Core.SortObjectProperties | lib/core.js:79-89 | the result holds exactly the object's key/value pairs (as a multiset), in ascending key order |
| Core.SortedListingIsUnique | lib/core.js:79-89 | two sorted listings of the same object are equal: the order is determined |
| Core.IndexPairsPartition | lib/core.js:79-89 | splitting an object's pairs into those whose keys are array indices and the rest loses and adds nothing |
| Core.SortByIndex | lib/core.js:79-89 | the index-keyed pairs in ascending numeric order, the same pairs as a multiset |
| Core.ForInOrder | lib/core.js:79-89 | the order in which `for…in` lists an object built from the pairs: the same pairs, and a key is an array index exactly when it stands before all the others |
| Core.SortedObjectListing | lib/core.js:79-89 | listing the sorted object with `for…in` gives the object's pairs, the array-index keys first in ascending numeric order, then every other key in ascending string order |
| Core.RenderSignature | lib/core.js:185-192 | the signature starts with the command name, followed by at least the two characters of its parentheses |
| Core.RenderedSignatureParameters | lib/core.js:185-192 | when no parameter name holds a comma, the rendered signature starts with the command name and lists exactly the parameters, in order |
| Core.DriveTokenFrom | lib/core.js:197 | the first position at or after `from` that holds a non-whitespace character followed by a colon, or none |
| Core.RemoveDriveToken | lib/core.js:199 | the first drive token is removed and the text on either side of it is kept |
| Core.CreateTerminalExecutionPrefix | lib/core.js:194-209 | fails with the Windows-only message off win32; on win32 it is `start "<title>" cmd /k "`, followed by a drive switch and `cd` when the path holds a drive token, and by `cd <path>` when it does not |
| Core.TerminalPrefixSwitchesDrive | lib/core.js:197-200 | a path `C:rest` gives `C: & cd rest` |
| Core.TerminalPrefixWithoutDrive | lib/core.js:201-202 | a path without a colon is changed to directly |
| Arguments.HideSpacesShape | lib/core.js:101 | the hidden form of a value holds no whitespace and no new double quote; a value without whitespace is unchanged; a value with whitespace shows the sentinel |
| Arguments.HiddenSpacesRestore | lib/core.js:172-180 | replacing the sentinel by a space gives back a value that held only plain spaces and no `@` |
| Arguments.QuoteTransformedUnquoted | lib/core.js:91-112 | no double quote survives the transformation |
| Arguments.QuoteFreeUnchanged | lib/core.js:91-112 | a text without double quotes is left as it is |
| Arguments.QuotedSegment | lib/core.js:91-112 | a quoted value has its whitespace hidden where it stands and loses its quotes; the text before it is kept |
| Arguments.UnpairedQuote | lib/core.js:91-112 | an unpaired double quote is dropped and the text after it is kept |
| Arguments.TransformQuotedValues | lib/core.js:91-112 | the loop over quote pairs computes the transformation `QuoteTransformed` |
| Arguments.QuoteMatches | lib/core.js:97 | every match of `/"[^"]*"/g` is at least its two quotes |
| Arguments.QuoteMatchesStep | lib/core.js:97 | a complete pair after quote-free text is the next match, and matching resumes after it |
| Arguments.QuoteReplacedAtWrongPlace | lib/core.js:91-112 | on the text `"" " "`, `transformQuotedValues` as written hides the whitespace between the pairs and leaves the quoted one plain, where hiding each match in place does the opposite |
| Arguments.StraddledArguments | lib/core.js:91-183 | on the line arguments `"" " " x`, the source's parser gives the command three arguments, a space, an empty string and `x`, where hiding in place gives the two typed values, a space and `x` |
| Arguments.ColonToken | lib/core.js:128-129 | a named token is split at its first colon, and later colons stay in the value |
| Arguments.ColonlessToken | lib/core.js:128-129 | a token without a colon is all name, and its value is undefined |
| Arguments.FindNamedIsLast | lib/core.js:127-135 | a lookup finds nothing exactly when no token names the parameter; otherwise it finds the value of the last token that does |
| Arguments.FindNamedSwap | lib/core.js:127-135 | swapping two neighbouring tokens that name different parameters changes no lookup |
| Arguments.NamedSlots | lib/core.js:114-146 | one entry per parameter; an entry is present exactly at the last position of each parameter name |
| Arguments.SlotPositions | lib/core.js:122-124 | the first loop maps each name to its last position |
| Arguments.PlaceValues | lib/core.js:127-135 | after the second loop, each slot holds the value of the last token naming it, and every other position is a hole |
| Arguments.FillNulls | lib/core.js:139-143 | the third loop fills every slot that holds nothing with null and leaves holes as they are |
| Arguments.ParseNamedArguments | lib/core.js:114-146 | the three loops together compute `NamedSlots` |
| Arguments.RestoreEach | lib/core.js:172-180 | the final `forEach` computes `Collect`, restoring each present entry in order |
| Arguments.Positional | lib/core.js:165 | the words as array entries, with no hole: `forEach` then gives exactly one argument per word, in order, each the word restored |
| Arguments.Unwrap | lib/core.js:158-162 | in the named form, putting the two brackets back around the result gives the text again, and the result holds no line terminator; any other text is unchanged |
| Arguments.GenerateArgumentsArray | lib/core.js:148-183 | the method computes the specification function `ArgumentsOf` |
| Arguments.ArgumentsOf | lib/core.js:148-183 | unnamed, one argument per word; named, at most one per parameter; what the arguments are is stated by `PositionalArguments`, `QuotedArgument` and `NamedArguments` |
| Arguments.ArgumentsAsWritten | lib/core.js:91-183 | the parser with `transformQuotedValues` as written: unnamed, one argument per word; named, at most one per parameter; `StraddledArguments` shows where it differs |
| Arguments.CollectLength | lib/core.js:172-180 | `forEach` gives at most one argument per entry |
| Arguments.PositionalArguments | lib/core.js:148-183 | words separated by single spaces arrive as one argument each, as typed; the word `null` arrives as null |
| Arguments.QuotedArgument | lib/core.js:148-183 | a double-quoted value arrives as one argument with its spaces kept |
| Arguments.NamedArguments | lib/core.js:148-183 | a bracketed list of `name:value` tokens gives one argument per parameter, in parameter order: the last value named for it, or null |
| Arguments.DistinctSlots | lib/core.js:114-146 | with distinct parameter names, the named form leaves no hole |
| Arguments.NamedOrderIrrelevant | lib/core.js:148-183 | in the named form, swapping two tokens that name different parameters does not change the arguments |
| Arguments.RestorePlain | lib/core.js:172-180 | a word without `@` is restored as it is, and the word `null` becomes null |
| Tables.MoveKeyMoves | cmdModules/core/filePath/commands.js:72-90 | renaming to a different name moves the value, removes the old key and leaves every other key alone |
| Tables.MoveKeyToItself | cmdModules/core/filePath/commands.js:81-82 | renaming a key to itself deletes it, because the delete runs after the copy |
| Tables.MoveKeyBack | cmdModules/core/filePath/commands.js:72-90 | renaming to a free name and back gives the table back |
| Tables.MoveKey | cmdModules/core/filePath/commands.js:81-82 | the keys afterwards are the old keys plus the new name minus the old one, and the new name holds the old value when the names differ |
| Tables.IndexOf | cmdModules/core/filePath/commands.js:157-176 | -1 exactly when the element is absent; otherwise the first position holding it |
| Tables.RemoveAt | cmdModules/core/filePath/commands.js:166-170 | the list without the element at that position, one shorter |
| Tables.RemoveAtMultiset | cmdModules/core/filePath/commands.js:166-170 | splicing removes exactly one copy of the element |
| Tables.AppendThenRemove | cmdModules/core/filePath/commands.js:150-170 | appending a new element and then splicing out its first occurrence gives the list back |
| Tables.ReplaceBack | cmdModules/core/filePath/commands.js:157-165 | replacing the first `x` by an absent `y`, then the first `y` by `x`, gives the list back |
| Shell.ModuleEntries | ncline.js:59-77 | one entry per exported function of a module, in order, each with its command set, module, exported name, parameters, and its manual entry exactly when the manual has one for that name |
| Shell.FinalName | ncline.js:63 | the name used is the exported name, or one of the override names given for the module; a module without overrides keeps its exported names |
| Shell.Apply | ncline.js:63-76 | one registration: the table's names are the old ones plus the final name |
| Shell.ApplyEffect | ncline.js:63-76 | one registration: the final name now holds this function, every other name keeps its entry, the catalog grows by that name, and one warning is added exactly when the name was taken |
| Shell.CatalogEffect | ncline.js:76 | the catalog gets every final name in registration order, duplicates included |
| Shell.NamesOfRun | ncline.js:54-81 | the final names of a run are the first name followed by the names of the rest |
| Shell.KeysEffect | ncline.js:69-75 | the table's names afterwards are the names it had plus the final names registered |
| Shell.CollisionsEffect | ncline.js:65-67 | one warning for each registration whose name was already taken, in registration order |
| Shell.UntouchedName | ncline.js:69-75 | a name that no registration uses keeps what the table held for it |
| Shell.LastDefinitionWins | ncline.js:63-75 | a name ends up holding the last registration that used it |
| Shell.WarningCount | ncline.js:65-76 | the number of warnings is the number of registrations minus the number of new names |
| Shell.Completions | ncline.js:92-98 | the line is returned alongside; when some catalog name starts with the line, the list is exactly `Hits` of the catalog; when none does, the whole catalog |
| Shell.Hits | ncline.js:93-95 | a name is kept exactly when the line is a prefix of it |
| Shell.HitsSingle | ncline.js:93-95 | a one-name catalog keeps its name exactly when the line is a prefix of it |
| Shell.HitsAppend | ncline.js:93-95 | filtering two catalogs joined is filtering each and joining the results: with `HitsSingle`, the names are kept in catalog order, with their repeats |
| Shell.CommandName | ncline.js:126 | the longest run of non-whitespace at the start of the line, possibly empty |
| Shell.LineParts | ncline.js:126-131 | a line that holds a space is its command name, one whitespace character and its argument string |
| Shell.TypedLine | ncline.js:126-131 | `name args` splits back into that name and that argument text |
| Shell.UnknownCommand | ncline.js:169-174 | a line that names no registered command calls nothing; the user is told, unless the name is empty |
| Shell.TypedCommand | ncline.js:133-159 | a registered command receives the parsed arguments, and no arguments at all when nothing follows the space |
| Shell.SpacelessLine | ncline.js:127-131 | a line without a space calls its command with no arguments |
| Shell.Report | ncline.js:161-168 | nothing is printed exactly when the command returned; a thrown error always prints a non-empty line, its own message when it has one |
| Shell.Dispatch | ncline.js:126-174 | a command is invoked exactly when the line's command name is registered, and it is that command; the line is ignored exactly when the name is empty |
| Shell.Session.constructor | ncline.js:54-81 | the session starts with an empty table, catalog and warning list |
| Shell.Session.Register | ncline.js:63-76 | one registration: a warning when the name is taken, the entry stored, the name appended to the catalog |
| Shell.Session.RegisterModule | ncline.js:61-78 | every exported function of one module is registered, in order |
| Shell.Session.RegisterAll | ncline.js:54-81 | every module of every command set is registered, in order |
| Shell.Session.HandleLine | ncline.js:121-176 | an empty name prints nothing; an unknown name prints the not-recognized notice; a known command is run on the parsed arguments and its outcome reported; the prompt is regenerated only when the command returns normally |
| Watchers.ClosedUpToKeepsList | lib/watchers.js:17-21 | closing keeps the list unchanged and closes every watcher before the stopping point |
| Watchers.NoThrowClosesAll | lib/watchers.js:17-21 | when no `close()` throws, every watcher ends up closed |
| Watchers.Registry.constructor | lib/watchers.js:5 | the registry starts empty |
| Watchers.Registry.GetWatchers | lib/watchers.js:9-11 | returns the current list and changes nothing |
| Watchers.Registry.RegisterWatcher | lib/watchers.js:13-15 | the watcher is appended and earlier entries are kept |
| Watchers.Registry.CloseAllWatchers | lib/watchers.js:17-21 | `close()` is called on the watchers in registration order, up to and including the first one that throws; `threw` reports it, and the later watchers are left untouched |
| FilePath.CreateFailure | cmdModules/core/filePath/commands.js:32-40 | none exactly when both arguments are given and the name is free; each failure carries the source's message |
| FilePath.UpdateFailure | cmdModules/core/filePath/commands.js:53-61 | none exactly when both arguments are given and the alias names a single path |
| FilePath.RenameFailure | cmdModules/core/filePath/commands.js:72-78 | none exactly when both names are given and the current alias exists and has the kind the command expects |
| FilePath.DeleteFailure | cmdModules/core/filePath/commands.js:92-98 | none exactly when the alias is given and names the kind the command expects |
| FilePath.UpdateSetFailure | cmdModules/core/filePath/commands.js:134-148 | none exactly when the alias, action and path are given, the alias names a set, the action is known, and an update has a non-empty replacement |
| FilePath.LocateFailure | cmdModules/core/filePath/commands.js:226-238 | none exactly when the alias names a single path |
| FilePath.GetAliasOn | cmdModules/core/filePath/commands.js:315-323 | succeeds exactly on a known alias, and returns its stored value |
| FilePath.Store.constructor | cmdModules/core/filePath/init.js:16-28 | target `self` at the installation path, no source, and `self` as the only alias |
| FilePath.Store.SetPathVerbose | cmdModules/core/filePath/commands.js:20-30 | the new data is what `SetPathVerboseOn` gives, and an error leaves the data unchanged |
| FilePath.Store.CreateAlias | cmdModules/core/filePath/commands.js:32-51 | the new data is what `CreateAliasOn` gives, and an error leaves the data unchanged |
| FilePath.Store.UpdateAlias | cmdModules/core/filePath/commands.js:53-70 | the new data is what `UpdateAliasOn` gives, and an error leaves the data unchanged |
| FilePath.Store.RenameAlias | cmdModules/core/filePath/commands.js:72-90 | the new data is what `RenameAliasOn` gives: first the copy, then the delete |
| FilePath.Store.DeleteAlias | cmdModules/core/filePath/commands.js:92-108 | the new data is what `DeleteAliasOn` gives |
| FilePath.Store.CreateAliasSet | cmdModules/core/filePath/commands.js:110-129 | the new data is what `CreateAliasSetOn` gives |
| FilePath.Store.UpdateAliasSet | cmdModules/core/filePath/commands.js:131-185 | the new data is what `UpdateAliasSetOn` gives |
| FilePath.Store.RenameAliasSet | cmdModules/core/filePath/commands.js:187-205 | the new data is what `RenameAliasSetOn` gives |
| FilePath.Store.DeleteAliasSet | cmdModules/core/filePath/commands.js:207-224 | the new data is what `DeleteAliasSetOn` gives |
| FilePath.Store.Target | cmdModules/core/filePath/commands.js:226-250 | the new data is what `TargetOn` gives, with the notice shown when no alias is given |
| FilePath.Store.Source | cmdModules/core/filePath/commands.js:252-281 | the new data is what `SourceOn` gives, with the notice shown when no alias is given |
| FilePath.Store.ClearSource | cmdModules/core/filePath/commands.js:283-293 | the old source becomes the previous one, and the source is cleared |
| FilePath.Store.GetAlias | cmdModules/core/filePath/commands.js:315-323 | returns `GetAliasOn` and changes nothing |
| FilePath.Store.GetTargetPath | cmdModules/core/filePath/commands.js:333-335 | returns the target's path and changes nothing |
| FilePath.SetPathVerboseEffect | cmdModules/core/filePath/commands.js:20-30 | succeeds exactly on Boolean strings, stores `booleanValue`, and changes nothing else |
| FilePath.CreateAliasThenDelete | cmdModules/core/filePath/commands.js:32-108 | `createAlias` adds exactly the new key, and `deleteAlias` then gives the data back |
| FilePath.CreateAliasSetThenDelete | cmdModules/core/filePath/commands.js:110-224 | `createAliasSet` adds a one-path set under the new key, and `deleteAliasSet` then gives the data back |
| FilePath.CreateTakenFails | cmdModules/core/filePath/commands.js:35-40 | a name already in use, as a path or as a set, cannot be created again by either command |
| FilePath.UpdateAliasThenGet | cmdModules/core/filePath/commands.js:53-70 | `updateAlias` replaces only that value, and `getAlias` then reads the new path |
| FilePath.DeleteAliasEffect | cmdModules/core/filePath/commands.js:92-108 | `deleteAlias` removes only a single path, and `getAlias` no longer finds it |
| FilePath.RenameAliasThenBack | cmdModules/core/filePath/commands.js:72-90 | renaming to a free name moves the path there, and renaming back gives the data back |
| FilePath.RenameAliasOverwrites | cmdModules/core/filePath/commands.js:72-90 | nothing stops a rename onto a name in use, and that alias's value is overwritten |
| FilePath.RenameToItselfDeletes | cmdModules/core/filePath/commands.js:81-82 | renaming an alias or an alias set to its own name deletes it |
| FilePath.RenameAliasSetThenBack | cmdModules/core/filePath/commands.js:187-205 | renaming a set to a free name and back gives the data back |
| FilePath.KindsKeptApart | cmdModules/core/filePath/commands.js:53-224 | the single-path commands refuse sets, and the set commands refuse single paths |
| FilePath.AddThenDeletePath | cmdModules/core/filePath/commands.js:150-176 | `add` appends the path, and deleting that path afterwards gives the data back when it was new |
| FilePath.UpdatePathInSet | cmdModules/core/filePath/commands.js:157-165 | succeeds exactly when the path is in the set, replaces its first occurrence and keeps the length |
| FilePath.DeletePathInSet | cmdModules/core/filePath/commands.js:166-176 | succeeds exactly when the path is in the set, and removes one copy of it at its first occurrence |
| FilePath.UpdateNeedsReplacement | cmdModules/core/filePath/commands.js:138-139 | `update` without a replacement, or with an empty one, is refused |
| FilePath.TargetEffect | cmdModules/core/filePath/commands.js:226-250 | the old target becomes the previous one, the new target records the alias and its path, and nothing else changes |
| FilePath.SourceEffect | cmdModules/core/filePath/commands.js:252-281 | the same for `source` |
| FilePath.LocateWithoutAlias | cmdModules/core/filePath/commands.js:226-281 | without an alias (null or empty), `target` and `source` change nothing |
| FilePath.SourceThenClear | cmdModules/core/filePath/commands.js:252-293 | `clearSource` after `source` keeps the new source as the previous one and clears the source |
| Browser.LeadingRun | cmdModules/public/browser/commands.js:20-21 | the longest prefix made of accepted characters |
| Browser.ParseInt | cmdModules/public/browser/commands.js:20-21 | a blank text is NaN, and only a text whose first non-blank character is `-` reads as negative; `ParseIntOfDigits`, `ParseIntOfWord` and `ParseIntStopsAtPoint` state the readings the lookup uses |
| Browser.ParseIntOfDigits | cmdModules/public/browser/commands.js:20-21 | a string of decimal digits is read as its value |
| Browser.ParseIntOfWord | cmdModules/public/browser/commands.js:20-21 | a text that starts with a letter is not a number |
| Browser.LastUrlIndex | cmdModules/public/browser/commands.js:22-27 | -1 exactly when no member has the url; otherwise the last position whose url it is |
| Browser.SetMemberIndex | cmdModules/public/browser/commands.js:18-30 | the identifier as an index when a member is there; otherwise the last member with that url; otherwise -1 |
| Browser.FindSetMemberIndex | cmdModules/public/browser/commands.js:18-30 | the index check and the scan compute `SetMemberIndex` |
| Browser.MemberByUrl | cmdModules/public/browser/commands.js:18-30 | an identifier that is not an index finds a member with that url and no later member has it, so it is the last one; -1 exactly when none has it |
| Browser.MemberByIndex | cmdModules/public/browser/commands.js:20-21 | an identifier that reads as the index of a member finds that member, whatever the urls |
| Browser.ParseIntStopsAtPoint | cmdModules/public/browser/commands.js:20-21 | `parseInt` of a digit followed by a decimal point reads as that digit |
| Browser.FractionalIndexIdentifier | cmdModules/public/browser/commands.js:18-30 | an identifier such as `1.45` finds the member at index 1 when there is one |
| Browser.ExecutionStringShape | cmdModules/public/browser/commands.js:306-323 | the statement ends with the url; outside macOS it starts with `start` and the browser, and on macOS an empty browser means `open <url>` |
| Browser.ExecutionStringWords | cmdModules/public/browser/commands.js:306-323 | when url and browsers hold no space, the statement's words are `start <browser> <url>` off macOS, `open <url>` on macOS with an empty browser, and `open -a <browser> <url>` on macOS otherwise, where the browser is the default one for a record whose browser is `default` |
| Browser.ExecutionString | cmdModules/public/browser/commands.js:306-323 | the statement ends with the url, which it is longer than; its words are stated by `ExecutionStringWords` |
| Browser.WebOn | cmdModules/public/browser/commands.js:283-300 | succeeds exactly on a known alias, giving one statement for a single record and one per member for a set |
| Browser.DefaultBrowserResolved | cmdModules/public/browser/commands.js:308 | a record whose browser is `default` opens like one that names the default browser |
| Browser.CreateFailure | cmdModules/public/browser/commands.js:69-78 | none exactly when alias and url are given and the name is free |
| Browser.SingleFailure | cmdModules/public/browser/commands.js:90-99 | none exactly when both arguments are given and the alias names a single record |
| Browser.DeleteFailure | cmdModules/public/browser/commands.js:113-121 | none exactly when the alias is given and names a single record |
| Browser.DeleteSetFailure | cmdModules/public/browser/commands.js:247-255 | none exactly when the alias is given and names a set |
| Browser.UpdateSetFailure | cmdModules/public/browser/commands.js:178-188 | none exactly when the arguments are given, the alias names a set, the action is known, and `url` and `browser` have a value |
| Browser.GetWebAliasOn | cmdModules/public/browser/commands.js:325-333 | succeeds exactly on a known alias, and returns its stored value |
| Browser.Sites.constructor | cmdModules/public/browser/commands.js:11-16 | the object holds the loaded data |
| Browser.Sites.SetWebAliasVerbose | cmdModules/public/browser/commands.js:36-46 | the new data is what `SetWebAliasVerboseOn` gives, and an error leaves the data unchanged |
| Browser.Sites.SetDefaultBrowser | cmdModules/public/browser/commands.js:48-62 | the new data is what `SetDefaultBrowserOn` gives |
| Browser.Sites.GetDefaultBrowser | cmdModules/public/browser/commands.js:64-67 | shows the default browser, or the system's choice when that is empty; changes nothing |
| Browser.Sites.CreateWebAlias | cmdModules/public/browser/commands.js:69-88 | the new data is what `CreateWebAliasOn` gives |
| Browser.Sites.UpdateWebAlias | cmdModules/public/browser/commands.js:90-111 | the new data is what `UpdateWebAliasOn` gives |
| Browser.Sites.DeleteWebAlias | cmdModules/public/browser/commands.js:113-130 | the new data is what `DeleteWebAliasOn` gives |
| Browser.Sites.UpdateWebAliasBrowser | cmdModules/public/browser/commands.js:132-150 | the new data is what `UpdateWebAliasBrowserOn` gives |
| Browser.Sites.CreateWebAliasSet | cmdModules/public/browser/commands.js:152-173 | the new data is what `CreateWebAliasSetOn` gives |
| Browser.Sites.UpdateWebAliasSet | cmdModules/public/browser/commands.js:175-245 | the new data is what `UpdateWebAliasSetOn` gives |
| Browser.Sites.DeleteWebAliasSet | cmdModules/public/browser/commands.js:247-264 | the new data is what `DeleteWebAliasSetOn` gives |
| Browser.Sites.Web | cmdModules/public/browser/commands.js:283-300 | the statements run: one per member of a set in the set's order, or one for a single record; unknown or missing alias is an error |
| Browser.Sites.GetWebAlias | cmdModules/public/browser/commands.js:325-333 | returns `GetWebAliasOn` and changes nothing |
| Browser.SetWebAliasVerboseEffect | cmdModules/public/browser/commands.js:36-46 | succeeds exactly on Boolean strings, stores `booleanValue`, and changes nothing else; any other setting is refused with the Boolean message |
| Browser.DefaultWord | cmdModules/public/browser/commands.js:48-67 | `setDefaultBrowser default` stores the empty name, which `getDefaultBrowser` shows as the system's choice |
| Browser.NamedDefaultBrowser | cmdModules/public/browser/commands.js:48-62 | any other name is stored as it is, and nothing else changes |
| Browser.CreateWebAliasThenDelete | cmdModules/public/browser/commands.js:69-130 | `createWebAlias` adds only the new record, and `deleteWebAlias` then gives the data back |
| Browser.CreateWebAliasSetThenDelete | cmdModules/public/browser/commands.js:152-264 | `createWebAliasSet` adds a one-record set, and `deleteWebAliasSet` then gives the data back |
| Browser.UpdateWebAliasFields | cmdModules/public/browser/commands.js:90-150 | `updateWebAlias` always takes the new url and keeps the old browser unless a non-empty one is given; `updateWebAliasBrowser` keeps the url |
| Browser.KindsKeptApart | cmdModules/public/browser/commands.js:90-264 | the single-record commands refuse sets, and the set commands refuse single records |
| Browser.AddThenDeleteByUrl | cmdModules/public/browser/commands.js:190-236 | `add` appends a record, and deleting by its url (new, and not read as an index) gives the data back |
| Browser.ChecksPass | cmdModules/public/browser/commands.js:178-188 | on a set, an action word with the value it needs passes the checks, and the command goes on to edit the set |
| Browser.EditMember | cmdModules/public/browser/commands.js:198-236 | `url` and `browser` change one field of the member that is found and keep the length; `delete` removes exactly that member |
| Browser.AppendedUrlFound | cmdModules/public/browser/commands.js:18-30 | a record appended under a new url, not read as an index, is the one its url finds |
| Browser.MemberNotFound | cmdModules/public/browser/commands.js:198-236 | a member that cannot be found is an error naming the identifier, for `url`, `browser` and `delete` |
| Browser.WebStatements | cmdModules/public/browser/commands.js:283-300 | `web` on a set gives one statement per member in order, and on a single record one statement |
| Batch.FileName | cmdModules/public/batch/commands.js:21-22 | the last `\`-separated piece of the path, which holds no `\` |
| Batch.DirectoryAndFile | cmdModules/public/batch/commands.js:21-23 | in `dir\file`, the file name is `file` and the directory is `dir` |
| Batch.BareFileName | cmdModules/public/batch/commands.js:21-23 | a path without `\` is a file name in an empty directory |
| Batch.ParseBatchFileStatement | cmdModules/public/batch/commands.js:18-33 | the statement opens a console titled with the alias and ends by running the file name, then the closing quote; the two branches are stated by `StatementWithDrive` and `StatementWithoutDrive` |
| Batch.StatementWithDrive | cmdModules/public/batch/commands.js:25-28 | a path that starts with a drive: switch to the drive, change to the directory, run the file |
| Batch.StatementWithoutDrive | cmdModules/public/batch/commands.js:29-30 | a path without a colon: the directory is passed on as it is, followed by the file |
| Batch.CreateFailure | cmdModules/public/batch/commands.js:52-56 | none exactly when both arguments are given and the name is free |
| Batch.RenameFailure | cmdModules/public/batch/commands.js:69-73 | none exactly when both names are given and the current alias exists |
| Batch.UpdateFailure | cmdModules/public/batch/commands.js:89-93 | none exactly when both arguments are given and the alias exists |
| Batch.LookupFailure | cmdModules/public/batch/commands.js:106-110 | none exactly when the alias is given and exists |
| Batch.BatchOn | cmdModules/public/batch/commands.js:139-146 | succeeds exactly on a known alias, and gives the statement for its stored path |
| Batch.Batches.constructor | cmdModules/public/batch/init.js:13-16 | not verbose, no aliases |
| Batch.Batches.SetBatchAliasVerbose | cmdModules/public/batch/commands.js:39-49 | the new data is what `SetBatchAliasVerboseOn` gives, and an error leaves the data unchanged |
| Batch.Batches.CreateBatchAlias | cmdModules/public/batch/commands.js:51-66 | the new data is what `CreateBatchAliasOn` gives |
| Batch.Batches.RenameBatchAlias | cmdModules/public/batch/commands.js:68-86 | the new data is what `RenameBatchAliasOn` gives: the copy, then the delete |
| Batch.Batches.UpdateBatchAlias | cmdModules/public/batch/commands.js:88-103 | the new data is what `UpdateBatchAliasOn` gives |
| Batch.Batches.DeleteBatchAlias | cmdModules/public/batch/commands.js:105-119 | the new data is what `DeleteBatchAliasOn` gives |
| Batch.Batches.Batch | cmdModules/public/batch/commands.js:139-149 | the statement for a known alias, or the lookup error; changes nothing |
| Batch.SetBatchAliasVerboseEffect | cmdModules/public/batch/commands.js:39-49 | succeeds exactly on Boolean strings, stores `booleanValue`, and leaves the aliases alone |
| Batch.CreateBatchAliasThenDelete | cmdModules/public/batch/commands.js:51-119 | `createBatchAlias` adds exactly the new key, and `deleteBatchAlias` then gives the data back |
| Batch.CreateAndUpdateGuarded | cmdModules/public/batch/commands.js:51-95 | a name in use cannot be created again, and an unknown one cannot be updated |
| Batch.UpdateBatchAliasThenRun | cmdModules/public/batch/commands.js:88-146 | `updateBatchAlias` replaces only that path, and `batch` then runs the new file |
| Batch.DeleteBatchAliasEffect | cmdModules/public/batch/commands.js:105-146 | succeeds exactly on a known alias and removes only it; `batch` then no longer finds it |
| Batch.RenameBatchAliasThenBack | cmdModules/public/batch/commands.js:68-86 | renaming to a free name moves the path there, and renaming back gives the data back |
| Batch.RenameBatchAliasCollisions | cmdModules/public/batch/commands.js:75-76 | renaming onto a name in use overwrites that alias, and renaming to the same name deletes it |
| Grunt.AliasPath | cmdModules/public/grunt/commands.js:26-30 | succeeds exactly on a known alias that names a single path, and returns that path; an alias set gives the alias-set error |
| Grunt.GruntOn | cmdModules/public/grunt/commands.js:15-41 | a statement is produced only on win32 and with one or two arguments, and it ends with the closing quote |
| Grunt.GruntWithOptionsOn | cmdModules/public/grunt/commands.js:43-70 | a statement is produced only on win32 and with at least two arguments, and it ends with the closing quote |
| Grunt.TaskStatement | cmdModules/public/grunt/commands.js:34-36 | fails exactly off win32; otherwise the statement starts with the terminal prefix and ends with the closing quote |
| Grunt.ArgumentCounts | cmdModules/public/grunt/commands.js:17-21 | no arguments, or more than two, are refused by `grunt`; fewer than two are refused by `gruntWithOptions`; each with its message |
| Grunt.WindowsOnly | cmdModules/public/grunt/commands.js:34 | off Windows, both commands fail with the platform error |
| Grunt.AliasMustBeOnePath | cmdModules/public/grunt/commands.js:26-30 | an unknown alias, a missing alias or an alias set is refused before any statement is built |
| Grunt.GruntInTarget | cmdModules/public/grunt/commands.js:22-36 | with one argument, the task runs in the target directory, and the task also names the console window |
| Grunt.GruntThroughAlias | cmdModules/public/grunt/commands.js:25-36 | with two arguments, the task runs in the alias's directory, switching drive first |
| Grunt.OptionsExtendGrunt | cmdModules/public/grunt/commands.js:43-70 | `gruntWithOptions` builds the statement `grunt` builds for the same directory and task, with a space and the options before the closing quote; arguments after the third change nothing |
| Grunt.OptionsBeforeQuote | cmdModules/public/grunt/commands.js:64-66 | the statement with options is the one without them, with its closing quote moved after them |

## Left out

- Writing each module's data file (`fs.writeFile`) and loading it at start-up (`init.js`). The models start from the data.
- The success messages that verbose mode prints, and the colours of all output.
- `childProcess.exec`. Each command returns the statement it would run, and an error from `exec` is not modelled.
- The thin command modules that only call `exec` (`notepadLauncher`, `pathTerminal`, `pathWindow`), `cmdManager`, and the commands that only print (`showPaths`, `showWebsites`, `showBatches`).
- In `ncline.js`: reading the module directories, the command-name overrides file, readline itself, and the SIGINT handler. Each module is given as a list of exported names.
- `introspect`: a command's parameter names are given as a list.
- Shell.Session.HandleLine: the rewriting of the handler's own `arguments` object is not modelled. The command receives the parsed list, and its run is a parameter, `run`.
- Arguments.TransformQuotedValues: the replacement text given to `replace` is the quoted value itself, with its whitespace hidden, so `$$`, `$&`, `` $` ``, `$'` or `$1` typed inside a quoted value are expanded by `replace` in the source. The model inserts the quoted text literally, so quoted values holding `$` are outside what it states.
- Arguments: a user value that itself contains the sentinels `@#Sp#@` or `@#Semi#@` is outside the stated lemmas.
- Arguments.NamedArguments: stated only for distinct parameter names. With a repeated name, the source's array has holes that `forEach` skips; `NamedSlots` models those holes but no lemma describes the result.
- Core.SortObjectProperties: keys are compared by Unicode code point, while lodash's `sortBy` compares JavaScript strings by UTF-16 code unit. The two orders differ only between characters above U+FFFF and characters from U+E000 to U+FFFF.
- Core: the loose equality `str == 0 || str == 1` converts text to a number. Only empty text and decimal numerals (sign, digits, fraction) are modelled. Hexadecimal, octal, binary, exponents and `Infinity` are not.
- Browser.SetMemberIndex: `parseInt` is modelled for leading whitespace, an optional sign, decimal digits, and hexadecimal digits after a `0x` or `0X` prefix. The loss of precision on numerals beyond 2^53 is not.
- Browser.Sites.constructor: the browser module's data file (its initial default browser and aliases) is not part of this model, so the class starts from loaded data.
- Batch: the source exports the commands only on win32 (`cmdModules/public/batch/commands.js:35`). The model describes the commands as exported there.
- FilePath: the hooks `getTargetAlias`, `getSourceAlias` and `getSourcePath` only read a field. The prompt takes those values directly (`Core.GenerateCommandPrompt`).
- Shell.Session.Register: the source tests a taken name with `cmd[finalCmdName] != undefined`, which also holds for names inherited from `Object.prototype` (`constructor`, `toString`, `valueOf`, `hasOwnProperty`, …). The first registration under such a name therefore warns in the source; the model's table is a map and does not.
- FilePath: a key named `__proto__` never becomes an own property of a JavaScript object, so `cmd['__proto__'] = …` and `data.aliases['__proto__'] = …` in the alias commands of every module store nothing usable. The model stores such a key like any other.
- Watchers.Registry.GetWatchers: the source returns its live array, so a caller that changes the result changes the registry. The model returns the list as a value, and that aliasing is not captured.
- Watchers: what a watcher watches is not modelled. A watcher is its name and whether its `close()` throws.

## Findings

| source | as written | input that shows it | evidently intended | confidence | as-written member | corrected member |
|---|---|---|---|---|---|---|
| lib/core.js:91-112 | each match of `/"[^"]*"/g` is replaced by its hidden form with `replace`, which rewrites the first occurrence of that text anywhere in the string, not the place where the match was found | the argument text `"" " " x` (an empty quoted value, a quoted space, a word): the second match `" "` first occurs straddling the gap between the pairs, so the gap's space is hidden and the quoted space stays plain; the command receives three arguments, a space, an empty string and `x` | each quoted value has its whitespace hidden where it stands, and the command receives the two typed values, a space and `x` | not executed | Arguments.StraddledArguments, Arguments.ArgumentsAsWritten | Arguments.GenerateArgumentsArray, Arguments.TransformQuotedValues |
