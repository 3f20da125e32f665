/**
 * ncline.js: the command table built at start-up from the command modules,
 * Tab completion over the command catalog, and the handler that reads one
 * input line, finds the command and applies it to the parsed arguments.
 */
module Shell {
  import opened Wrappers
  import opened Strings
  import opened Arguments
  import Core

  /**
   * One exported command function as the registration loop meets it: the
   * command set and module directory it comes from, its exported name, the
   * parameter names `introspect` would report, and its entry in the module's
   * manual, if there is one.
   */
  datatype Exported = Exported(setName: string, entry: string, name: string, params: seq<string>, manual: Option<string>)

  /**
   * A command module: its set and directory, its exported functions in
   * enumeration order, and its manual (empty when it has no manual file).
   */
  datatype CommandModule = CommandModule(setName: string, entry: string,
                                         functions: seq<(string, seq<string>)>, manual: map<string, string>)

  /**
   * An entry of the `cmd` table. The function is identified by its module
   * directory and exported name; `params` are its parameter names.
   */
  datatype Descriptor = Descriptor(entry: string, exportedName: string, params: seq<string>,
                                   signature: string, modulePath: string, manual: Option<string>)

  /** Name overrides: module directory to (exported name to name used at the prompt). */
  type Overrides = map<string, map<string, string>>

  /** The three things the registration loop builds. */
  datatype Registry = Registry(cmd: map<string, Descriptor>, catalog: seq<string>, collisions: seq<string>)

  /** The name a command is registered under: its override when one exists, else its exported name. */
  function FinalName(overrides: Overrides, e: Exported): (r: string)
    ensures r == e.name || (e.entry in overrides && r in overrides[e.entry].Values)
    ensures e.entry !in overrides ==> r == e.name
  {
    if e.entry in overrides && e.name in overrides[e.entry] then overrides[e.entry][e.name] else e.name
  }

  function DescriptorOf(overrides: Overrides, e: Exported): Descriptor
  {
    var name := FinalName(overrides, e);
    Descriptor(e.entry, e.name, e.params, Core.RenderSignature(name, e.params), e.setName + "/" + e.entry, e.manual)
  }

  function CollisionWarning(name: string): string
  {
    "Command '" + name + "' is defined more than once, last command defined wins."
  }

  /** The warning registering `name` over the names in `known` prints: one when it is taken. */
  function WarningsFor(known: set<string>, name: string): seq<string>
  {
    if name in known then [CollisionWarning(name)] else []
  }

  /** One pass of the innermost loop body: warn on a taken name, overwrite it, catalog it. */
  function Apply(r: Registry, overrides: Overrides, e: Exported): (r': Registry)
    ensures r'.cmd.Keys == r.cmd.Keys + {FinalName(overrides, e)}
  {
    var name := FinalName(overrides, e);
    Registry(r.cmd[name := DescriptorOf(overrides, e)],
             r.catalog + [name],
             r.collisions + WarningsFor(r.cmd.Keys, name))
  }

  /**
   * One registration stores this function under its final name, keeps every
   * other entry, catalogs the name, and warns exactly when the name was taken.
   */
  lemma ApplyEffect(r: Registry, overrides: Overrides, e: Exported)
    ensures var r', name := Apply(r, overrides, e), FinalName(overrides, e);
      && r'.cmd[name].exportedName == e.name
      && (forall n :: n in r.cmd && n != name ==> r'.cmd[n] == r.cmd[n])
      && r.catalog <= r'.catalog && |r'.catalog| == |r.catalog| + 1
      && r.collisions <= r'.collisions
      && |r'.collisions| == |r.collisions| + (if name in r.cmd then 1 else 0)
  {
  }

  /** The registrations in order. */
  function ApplyAll(r: Registry, overrides: Overrides, es: seq<Exported>): Registry
    decreases |es|
  {
    if es == [] then r else ApplyAll(Apply(r, overrides, es[0]), overrides, es[1..])
  }

  lemma ApplyAllOne(r: Registry, overrides: Overrides, e: Exported)
    ensures ApplyAll(r, overrides, [e]) == Apply(r, overrides, e)
  {
  }

  /** The exported functions of one module, with their manual entries looked up. */
  function ModuleEntries(m: CommandModule): (r: seq<Exported>)
    ensures |r| == |m.functions|
    ensures forall k :: 0 <= k < |r| ==>
      r[k] == Exported(m.setName, m.entry, m.functions[k].0, m.functions[k].1,
                       if m.functions[k].0 in m.manual then Some(m.manual[m.functions[k].0]) else None)
  {
    seq(|m.functions|, k requires 0 <= k < |m.functions| =>
      var (name, params) := m.functions[k];
      Exported(m.setName, m.entry, name, params, if name in m.manual then Some(m.manual[name]) else None))
  }

  /** The exported functions of all modules, module after module. */
  function Entries(ms: seq<CommandModule>): seq<Exported>
  {
    if ms == [] then [] else ModuleEntries(ms[0]) + Entries(ms[1..])
  }

  function FinalNames(overrides: Overrides, es: seq<Exported>): (r: seq<string>)
    ensures |r| == |es|
  {
    seq(|es|, k requires 0 <= k < |es| => FinalName(overrides, es[k]))
  }

  /** The warnings for `names` registered in turn over the names in `known`: one per name already taken. */
  function Warnings(known: set<string>, names: seq<string>): seq<string>
    decreases |names|
  {
    if names == [] then []
    else WarningsFor(known, names[0]) + Warnings(known + {names[0]}, names[1..])
  }

  lemma {:induction false} ApplyAllAppend(r: Registry, overrides: Overrides, a: seq<Exported>, b: seq<Exported>)
    ensures ApplyAll(r, overrides, a + b) == ApplyAll(ApplyAll(r, overrides, a), overrides, b)
    decreases |a|
  {
    if a != [] {
      assert (a + b)[0] == a[0] && (a + b)[1..] == a[1..] + b;
      ApplyAllAppend(Apply(r, overrides, a[0]), overrides, a[1..], b);
    } else {
      assert a + b == b;
    }
  }

  /** The catalog gets every final name, duplicates included, in registration order. */
  lemma {:induction false} CatalogEffect(r: Registry, overrides: Overrides, es: seq<Exported>)
    ensures ApplyAll(r, overrides, es).catalog == r.catalog + FinalNames(overrides, es)
    decreases |es|
  {
    if es != [] {
      var next := Apply(r, overrides, es[0]);
      var first, rest := FinalName(overrides, es[0]), FinalNames(overrides, es[1..]);
      assert ApplyAll(r, overrides, es).catalog == next.catalog + rest by {
        CatalogEffect(next, overrides, es[1..]);
      }
      assert next.catalog == r.catalog + [first] by {
        ApplyCatalog(r, overrides, es[0]);
      }
      assert FinalNames(overrides, es) == [first] + rest by {
        FinalNamesCons(overrides, es);
      }
      assert (r.catalog + [first]) + rest == r.catalog + ([first] + rest);
    }
  }

  lemma FinalNamesTail(overrides: Overrides, es: seq<Exported>)
    requires es != []
    ensures FinalNames(overrides, es[1..]) == FinalNames(overrides, es)[1..]
  {
  }

  lemma ApplyCatalog(r: Registry, overrides: Overrides, e: Exported)
    ensures Apply(r, overrides, e).catalog == r.catalog + [FinalName(overrides, e)]
  {
  }

  lemma ApplyCollisions(r: Registry, overrides: Overrides, e: Exported)
    ensures Apply(r, overrides, e).collisions == r.collisions + WarningsFor(r.cmd.Keys, FinalName(overrides, e))
  {
  }

  lemma AppendAssociates(a: seq<string>, b: seq<string>, c: seq<string>)
    ensures (a + b) + c == a + (b + c)
  {
  }

  lemma FinalNamesCons(overrides: Overrides, es: seq<Exported>)
    requires es != []
    ensures FinalNames(overrides, es) == [FinalName(overrides, es[0])] + FinalNames(overrides, es[1..])
  {
    FinalNamesTail(overrides, es);
    var names := FinalNames(overrides, es);
    assert names == [names[0]] + names[1..];
  }

  /** The final names of a non-empty run: the first one and those of the rest. */
  lemma NamesOfRun(overrides: Overrides, es: seq<Exported>)
    requires es != []
    ensures (set k | 0 <= k < |es| :: FinalName(overrides, es[k]))
         == {FinalName(overrides, es[0])} + (set k | 0 <= k < |es[1..]| :: FinalName(overrides, es[1..][k]))
  {
    var rest := set k | 0 <= k < |es[1..]| :: FinalName(overrides, es[1..][k]);
    var all := set k | 0 <= k < |es| :: FinalName(overrides, es[k]);
    forall n | n in all ensures n in {FinalName(overrides, es[0])} + rest {
      var k :| 0 <= k < |es| && n == FinalName(overrides, es[k]);
      if k > 0 {
        assert es[1..][k - 1] == es[k];
      }
    }
    forall n | n in rest ensures n in all {
      var k :| 0 <= k < |es[1..]| && n == FinalName(overrides, es[1..][k]);
      assert es[1..][k] == es[k + 1];
    }
  }

  /** The table's names afterwards are the names it had and the final names registered. */
  lemma {:induction false} KeysEffect(r: Registry, overrides: Overrides, es: seq<Exported>)
    ensures ApplyAll(r, overrides, es).cmd.Keys == r.cmd.Keys + (set k | 0 <= k < |es| :: FinalName(overrides, es[k]))
    decreases |es|
  {
    if es != [] {
      KeysEffect(Apply(r, overrides, es[0]), overrides, es[1..]);
      NamesOfRun(overrides, es);
    }
  }

  /** One warning per registration whose name was already taken, in registration order. */
  lemma {:induction false} CollisionsEffect(r: Registry, overrides: Overrides, es: seq<Exported>)
    ensures ApplyAll(r, overrides, es).collisions == r.collisions + Warnings(r.cmd.Keys, FinalNames(overrides, es))
    decreases |es|
  {
    if es != [] {
      var next := Apply(r, overrides, es[0]);
      var first, rest := FinalName(overrides, es[0]), FinalNames(overrides, es[1..]);
      var w := WarningsFor(r.cmd.Keys, first);
      assert ApplyAll(r, overrides, es).collisions == next.collisions + Warnings(next.cmd.Keys, rest) by {
        CollisionsEffect(next, overrides, es[1..]);
      }
      assert next.cmd.Keys == r.cmd.Keys + {first} && next.collisions == r.collisions + w by {
        ApplyCollisions(r, overrides, es[0]);
      }
      assert Warnings(r.cmd.Keys, FinalNames(overrides, es)) == w + Warnings(r.cmd.Keys + {first}, rest) by {
        var names := FinalNames(overrides, es);
        FinalNamesCons(overrides, es);
        assert names[0] == first && names[1..] == rest;
      }
      AppendAssociates(r.collisions, w, Warnings(next.cmd.Keys, rest));
    }
  }

  /** A name that no registration uses keeps whatever the table held for it. */
  lemma {:induction false} UntouchedName(r: Registry, overrides: Overrides, es: seq<Exported>, name: string)
    requires forall k :: 0 <= k < |es| ==> FinalName(overrides, es[k]) != name
    ensures (name in ApplyAll(r, overrides, es).cmd) == (name in r.cmd)
    ensures name in r.cmd ==> ApplyAll(r, overrides, es).cmd[name] == r.cmd[name]
    decreases |es|
  {
    if es != [] {
      UntouchedName(Apply(r, overrides, es[0]), overrides, es[1..], name);
    }
  }

  /** Last command defined wins: a name ends up with the last registration that used it. */
  lemma {:induction false} LastDefinitionWins(r: Registry, overrides: Overrides, es: seq<Exported>, j: nat)
    requires j < |es|
    requires forall k :: j < k < |es| ==> FinalName(overrides, es[k]) != FinalName(overrides, es[j])
    ensures FinalName(overrides, es[j]) in ApplyAll(r, overrides, es).cmd
    ensures ApplyAll(r, overrides, es).cmd[FinalName(overrides, es[j])] == DescriptorOf(overrides, es[j])
    decreases |es|
  {
    if j == 0 {
      var next := Apply(r, overrides, es[0]);
      UntouchedName(next, overrides, es[1..], FinalName(overrides, es[0]));
    } else {
      LastDefinitionWins(Apply(r, overrides, es[0]), overrides, es[1..], j - 1);
    }
  }

  lemma NamesOfTail(names: seq<string>)
    requires names != []
    ensures (set k | 0 <= k < |names| :: names[k])
         == {names[0]} + (set k | 0 <= k < |names[1..]| :: names[1..][k])
  {
    var all := set k | 0 <= k < |names| :: names[k];
    var rest := set k | 0 <= k < |names[1..]| :: names[1..][k];
    forall x | x in all ensures x in {names[0]} + rest {
      var k :| 0 <= k < |names| && x == names[k];
      if k > 0 {
        assert names[1..][k - 1] == names[k];
      }
    }
    forall x | x in rest ensures x in all {
      var k :| 0 <= k < |names[1..]| && x == names[1..][k];
      assert names[1..][k] == names[k + 1];
    }
  }

  /** Taking one more name out of the known ones: it is new exactly when it was not known. */
  lemma NewNamesCount(all: set<string>, rest: set<string>, known: set<string>, n: string)
    requires all == {n} + rest
    ensures |all - known| == |rest - (known + {n})| + (if n in known then 0 else 1)
  {
    var added := rest - (known + {n});
    if n in known {
      assert all - known == added;
    } else {
      assert all - known == added + {n};
      assert n !in added;
    }
  }

  /**
   * Every registration either adds a new name to the table or warns: the
   * warnings number the registrations less the names that were new.
   */
  lemma {:induction false} WarningCount(known: set<string>, names: seq<string>)
    ensures |Warnings(known, names)| + |(set k | 0 <= k < |names| :: names[k]) - known| == |names|
    decreases |names|
  {
    if names != [] {
      var n := names[0];
      WarningCount(known + {n}, names[1..]);
      var all := set k | 0 <= k < |names| :: names[k];
      var rest := set k | 0 <= k < |names[1..]| :: names[1..][k];
      NamesOfTail(names);
      assert |Warnings(known, names)| == (if n in known then 1 else 0) + |Warnings(known + {n}, names[1..])|;
      NewNamesCount(all, rest, known, n);
    }
  }

  /** `commandCompleter`: the catalog names starting with the line, or the whole catalog when none does. */
  function Completions(catalog: seq<string>, line: string): (r: (seq<string>, string))
    ensures r.1 == line
    ensures (exists c :: c in catalog && line <= c) ==>
      (forall c :: c in r.0 <==> c in catalog && line <= c)
    ensures (forall c :: c in catalog ==> !(line <= c)) ==> r.0 == catalog
    ensures (exists c :: c in catalog && line <= c) ==> r.0 == Hits(catalog, line)
  {
    var hits := Hits(catalog, line);
    assert |hits| > 0 ==> hits[0] in hits;
    (if |hits| > 0 then hits else catalog, line)
  }

  /** `cmdCatalog.filter(...)`: the names `line` is a prefix of, in catalog order. */
  function Hits(catalog: seq<string>, line: string): (r: seq<string>)
    ensures forall c :: c in r <==> c in catalog && line <= c
  {
    if catalog == [] then []
    else (if line <= catalog[0] then [catalog[0]] else []) + Hits(catalog[1..], line)
  }

  /** One name on its own is kept exactly when the line is a prefix of it. */
  lemma HitsSingle(c: string, line: string)
    ensures Hits([c], line) == if line <= c then [c] else []
  {
    assert [c][1..] == [];
  }

  /**
   * The filter keeps order and repeats: filtering two catalogs one after the
   * other gives the two results one after the other.
   */
  lemma {:induction false} HitsAppend(a: seq<string>, b: seq<string>, line: string)
    ensures Hits(a + b, line) == Hits(a, line) + Hits(b, line)
  {
    if a == [] {
      assert a + b == b;
    } else {
      assert (a + b)[0] == a[0];
      assert (a + b)[1..] == a[1..] + b;
      HitsAppend(a[1..], b, line);
    }
  }

  /** `input.match(/\S*(?=\s?)/)`: the run of non-whitespace the line starts with, possibly empty. */
  function CommandName(input: string): (r: string)
    ensures |r| <= |input| && r == input[..|r|] && NoSpace(r)
    ensures |r| < |input| ==> IsSpace(input[|r|])
    ensures forall i :: 0 <= i < |input| && IsSpace(input[i]) ==> |r| <= i
  {
    if input == [] || IsSpace(input[0]) then []
    else
      var rest := CommandName(input[1..]);
      assert [input[0]] + rest == input[..1 + |rest|];
      [input[0]] + rest
  }

  /**
   * The argument string: when the line holds a space, everything after the
   * command name and the whitespace character that ends it (`replace(/\S*\s/, '')`),
   * otherwise nothing.
   */
  function ArgumentString(input: string): (r: string)
  {
    if ' ' in input then
      var name := CommandName(input);
      assert |name| < |input| by {
        var i :| 0 <= i < |input| && input[i] == ' ';
        assert IsSpace(input[i]);
      }
      input[|name| + 1..]
    else ""
  }

  /**
   * A line holding a space is its command name, one whitespace character and
   * its argument string.
   */
  lemma LineParts(input: string)
    requires ' ' in input
    ensures var name := CommandName(input);
      |name| < |input| && IsSpace(input[|name|]) && input == name + [input[|name|]] + ArgumentString(input)
  {
    var name := CommandName(input);
    assert input == input[..|name|] + [input[|name|]] + input[|name| + 1..];
  }

  /** A command name, a space and a text split back into that name and that text. */
  lemma {:induction false} TypedLine(name: string, rest: string)
    requires NoSpace(name)
    ensures CommandName(name + " " + rest) == name && ArgumentString(name + " " + rest) == rest
    decreases |name|
  {
    var input := name + " " + rest;
    if name != [] {
      assert input[1..] == name[1..] + " " + rest;
      assert NoSpace(name[1..]) by {
        forall i | 0 <= i < |name[1..]| ensures !IsSpace(name[1..][i]) {
          assert name[1..][i] == name[i + 1];
        }
      }
      TypedLine(name[1..], rest);
      assert name == [name[0]] + name[1..];
    }
    assert input[|name|] == ' ';
    assert input[|name| + 1..] == rest;
  }

  /** What the `line` handler does with a line before any command runs. */
  datatype Action =
    | Ignore                                // an empty command name: nothing but a new prompt
    | NotRecognized(notice: string)         // an unknown command name
    | Invoke(name: string, args: seq<Arg>)  // apply the command to these arguments

  /** The notice for a command name not in the table (the source's spelling kept). */
  function NotRecognizedNotice(name: string): string
  {
    "'" + name + "' is not a recognized commmand."
  }

  /** The arguments a command gets: none for an empty argument string, else the parsed list. */
  function CallArguments(argumentString: string, params: seq<string>): seq<Arg>
  {
    if argumentString != "" then ArgumentsOf(argumentString, params) else []
  }

  function Dispatch(cmd: map<string, Descriptor>, input: string): (r: Action)
    ensures r.Invoke? <==> CommandName(input) in cmd
    ensures r.Invoke? ==> r.name == CommandName(input)
    ensures r.Ignore? <==> CommandName(input) == "" && "" !in cmd
  {
    var name := CommandName(input);
    if name in cmd then Invoke(name, CallArguments(ArgumentString(input), cmd[name].params))
    else if name != "" then NotRecognized(NotRecognizedNotice(name))
    else Ignore
  }

  /**
   * A line naming no registered command invokes nothing; the user is told
   * unless the name is empty.
   */
  lemma UnknownCommand(cmd: map<string, Descriptor>, input: string)
    requires CommandName(input) !in cmd
    ensures !Dispatch(cmd, input).Invoke?
    ensures Dispatch(cmd, input).NotRecognized? <==> CommandName(input) != ""
    ensures Dispatch(cmd, input).NotRecognized? ==>
      Dispatch(cmd, input).notice == NotRecognizedNotice(CommandName(input))
  {
  }

  /**
   * A typed line `name args`: a registered command gets the parsed arguments,
   * none at all when nothing follows the space.
   */
  lemma TypedCommand(cmd: map<string, Descriptor>, name: string, rest: string)
    requires NoSpace(name) && name in cmd
    ensures Dispatch(cmd, name + " " + rest)
         == Invoke(name, if rest == "" then [] else ArgumentsOf(rest, cmd[name].params))
  {
    TypedLine(name, rest);
  }

  /** A line with no space calls the command with no arguments, whatever follows a tab. */
  lemma SpacelessLine(cmd: map<string, Descriptor>, input: string)
    requires ' ' !in input && CommandName(input) in cmd
    ensures Dispatch(cmd, input) == Invoke(CommandName(input), [])
  {
  }

  /** How a command call ends: normally, or by throwing an error with a (possibly empty) message. */
  datatype CommandOutcome = Returned | Threw(message: string)

  /** What the `catch` prints: the error's message, or a notice naming the command when it has none. */
  function Report(name: string, outcome: CommandOutcome): (r: Option<string>)
    ensures outcome.Returned? <==> r.None?
    ensures outcome.Threw? && outcome.message != "" ==> r == Some(outcome.message)
    ensures outcome.Threw? && outcome.message == "" ==>
      r == Some("\nAn uncaught error occurred with command '" + name + "'.")
    ensures r.Some? ==> r.value != ""
  {
    match outcome
    case Returned => None
    case Threw(m) => if m != "" then Some(m) else Some("\nAn uncaught error occurred with command '" + name + "'.")
  }

  /**
   * The shell's state: the command table, the catalog and the collision
   * warnings the registration loop builds, and the readline prompt.
   */
  class Session {
    var cmd: map<string, Descriptor>
    var catalog: seq<string>
    var collisions: seq<string>
    var prompt: string

    function State(): Registry
      reads this
    {
      Registry(cmd, catalog, collisions)
    }

    /** Start-up: empty table, catalog and warnings, and the first prompt. */
    constructor(initialPrompt: string)
      ensures State() == Registry(map[], [], []) && prompt == initialPrompt
    {
      cmd, catalog, collisions := map[], [], [];
      prompt := initialPrompt;
    }

    /** The body of the innermost registration loop. */
    method Register(overrides: Overrides, e: Exported)
      modifies this
      ensures State() == Apply(old(State()), overrides, e) && prompt == old(prompt)
    {
      var name := FinalName(overrides, e);
      if name in cmd {
        collisions := collisions + [CollisionWarning(name)];
      }
      cmd := cmd[name := DescriptorOf(overrides, e)];
      catalog := catalog + [name];
    }

    /** `for ( cmdName in cmdModule )`: every exported function of one module. */
    method RegisterModule(overrides: Overrides, m: CommandModule)
      modifies this
      ensures State() == ApplyAll(old(State()), overrides, ModuleEntries(m)) && prompt == old(prompt)
    {
      var es := ModuleEntries(m);
      var i := 0;
      while i < |m.functions|
        invariant 0 <= i <= |m.functions| && prompt == old(prompt)
        invariant State() == ApplyAll(old(State()), overrides, es[..i])
      {
        var (name, params) := m.functions[i];
        var e := Exported(m.setName, m.entry, name, params, if name in m.manual then Some(m.manual[name]) else None);
        assert e == es[i];
        ApplyAllAppend(old(State()), overrides, es[..i], [e]);
        PrefixStep(es, i);
        ApplyAllOne(State(), overrides, e);
        Register(overrides, e);
        i := i + 1;
      }
      assert es[..|es|] == es;
    }

    /** The registration loop over every module of every command set, in order. */
    method RegisterAll(overrides: Overrides, modules: seq<CommandModule>)
      modifies this
      ensures State() == ApplyAll(old(State()), overrides, Entries(modules)) && prompt == old(prompt)
    {
      var i := 0;
      while i < |modules|
        invariant 0 <= i <= |modules| && prompt == old(prompt)
        invariant State() == ApplyAll(old(State()), overrides, Entries(modules[..i]))
      {
        EntriesAppend(modules[..i], modules[i]);
        PrefixStep(modules, i);
        ApplyAllAppend(old(State()), overrides, Entries(modules[..i]), ModuleEntries(modules[i]));
        RegisterModule(overrides, modules[i]);
        i := i + 1;
      }
      assert modules[..|modules|] == modules;
    }

    /**
     * The `line` handler. `run` stands for the commands' own code, which this
     * model does not hold, and `promptAfter` for the prompt generated from the
     * alias state the command leaves. The prompt is regenerated only when the
     * command returns normally; otherwise the old one is shown again.
     */
    method HandleLine(input: string, run: (string, seq<Arg>) -> CommandOutcome, promptAfter: string)
      returns (printed: Option<string>)
      modifies this`prompt
      ensures match Dispatch(cmd, input)
        case Ignore => printed == None && prompt == old(prompt)
        case NotRecognized(notice) => printed == Some(notice) && prompt == old(prompt)
        case Invoke(name, args) =>
          printed == Report(name, run(name, args))
          && prompt == if run(name, args).Returned? then promptAfter else old(prompt)
    {
      var name := CommandName(input);
      var argumentString := ArgumentString(input);
      if name in cmd {
        var args := [];
        if argumentString != "" {
          args := GenerateArgumentsArray(argumentString, cmd[name].params);
        }
        var outcome := run(name, args);
        match outcome {
          case Returned =>
            prompt := promptAfter;
          case Threw(_) =>
        }
        printed := Report(name, outcome);
      } else if name != "" {
        printed := Some(NotRecognizedNotice(name));
      } else {
        printed := None;
      }
    }
  }

  lemma EntriesAppend(ms: seq<CommandModule>, m: CommandModule)
    ensures Entries(ms + [m]) == Entries(ms) + ModuleEntries(m)
    decreases |ms|
  {
    if ms == [] {
      assert ms + [m] == [m];
      assert Entries([m]) == ModuleEntries(m) + Entries([]);
    } else {
      assert (ms + [m])[1..] == ms[1..] + [m];
      EntriesAppend(ms[1..], m);
    }
  }
}
