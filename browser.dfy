/**
 * cmdModules/public/browser/commands.js: web aliases, each a `{url, browser}`
 * record or a web alias set (a list of them), a default browser, and the
 * shell statements that open an alias's pages.
 *
 * As for the file paths, each command is a function from the old `data` to
 * the outcome (`...On`) and a method of `Sites` that edits the fields in
 * place and is proved to agree with it.
 */
module Browser {
  import opened Wrappers
  import opened Strings
  import opened Arguments
  import opened Tables
  import Output
  import Core

  /** One `{url, browser}` record; the browser `'default'` stands for the default browser. */
  datatype WebAlias = WebAlias(url: string, browser: string)

  /** A stored web alias: one record, or a web alias set. */
  datatype AliasValue = Single(site: WebAlias) | Set(members: seq<WebAlias>)

  /** The module's `data` object. */
  datatype Data = Data(verbose: bool, defaultBrowser: string, aliases: map<string, AliasValue>)

  function Fail<T>(message: string): Result<T>
  {
    Err(Output.ThrowError(message))
  }

  /** The longest prefix of `s` made of the characters `ok` accepts. */
  function LeadingRun(s: string, ok: char -> bool): (r: string)
    ensures |r| <= |s| && r == s[..|r|]
    ensures forall i :: 0 <= i < |r| ==> ok(r[i])
    ensures |r| == |s| || !ok(s[|r|])
  {
    if s == [] || !ok(s[0]) then [] else [s[0]] + LeadingRun(s[1..], ok)
  }

  predicate IsHexDigit(c: char)
  {
    Core.IsDigit(c) || 'a' <= c <= 'f' || 'A' <= c <= 'F'
  }

  function HexDigitValue(c: char): nat
    requires IsHexDigit(c)
  {
    if Core.IsDigit(c) then c as int - '0' as int
    else if 'a' <= c <= 'f' then c as int - 'a' as int + 10
    else c as int - 'A' as int + 10
  }

  function HexValue(s: string): nat
    requires forall i :: 0 <= i < |s| ==> IsHexDigit(s[i])
  {
    if s == [] then 0 else HexValue(s[..|s| - 1]) * 16 + HexDigitValue(s[|s| - 1])
  }

  predicate HexPrefixed(t: string)
  {
    |t| >= 2 && t[0] == '0' && (t[1] == 'x' || t[1] == 'X')
  }

  /**
   * `parseInt(s)` without a radix: leading whitespace skipped, an optional
   * sign, then the longest run of decimal digits (hexadecimal after `0x`);
   * None is NaN, when that run is empty.
   */
  function ParseInt(s: string): (r: Option<int>)
    ensures TrimStart(s) == [] ==> r.None?
    ensures r.Some? && r.value < 0 ==> TrimStart(s)[0] == '-'
  {
    var t := TrimStart(s);
    var negative := t != [] && t[0] == '-';
    var unsigned := if t != [] && (t[0] == '-' || t[0] == '+') then t[1..] else t;
    var magnitude :=
      if HexPrefixed(unsigned) then
        var h := LeadingRun(unsigned[2..], IsHexDigit);
        if h == [] then None else Some(HexValue(h))
      else
        var ds := LeadingRun(unsigned, Core.IsDigit);
        if ds == [] then None else Some(Core.DigitsValue(ds));
    match magnitude
    case None => None
    case Some(m) => Some(if negative then -(m as int) else m)
  }

  /** A string of decimal digits (not a `0x` form) is read as its value. */
  lemma ParseIntOfDigits(s: string)
    requires s != [] && Core.AllDigits(s) && !HexPrefixed(s)
    ensures ParseInt(s) == Some(Core.DigitsValue(s))
  {
    assert !IsSpace(s[0]);
    assert LeadingRun(s, Core.IsDigit) == s;
  }

  /** A text that starts with a letter (a URL, say) is not a number. */
  lemma ParseIntOfWord(s: string)
    requires s != [] && ('a' <= s[0] <= 'z' || 'A' <= s[0] <= 'Z')
    ensures ParseInt(s) == None
  {
    assert !IsSpace(s[0]);
    assert !Core.IsDigit(s[0]);
  }

  /** The last position whose url is `identifier`, or -1. */
  function LastUrlIndex(members: seq<WebAlias>, identifier: string): (r: int)
    ensures -1 <= r < |members|
    ensures r >= 0 ==> members[r].url == identifier
    ensures forall k :: r < k < |members| ==> members[k].url != identifier
  {
    if members == [] then -1
    else if members[|members| - 1].url == identifier then |members| - 1
    else LastUrlIndex(members[..|members| - 1], identifier)
  }

  /**
   * What `findSetMemberIndex` finds: the identifier read as an index when a
   * member is there, else the last member with that url, else -1.
   */
  function SetMemberIndex(members: seq<WebAlias>, identifier: string): (r: int)
    ensures -1 <= r < |members|
  {
    match ParseInt(identifier)
    case Some(n) => if 0 <= n < |members| then n else LastUrlIndex(members, identifier)
    case None => LastUrlIndex(members, identifier)
  }

  /** `findSetMemberIndex`: the index check, then a scan that keeps the last url match. */
  method FindSetMemberIndex(members: seq<WebAlias>, identifier: string) returns (index: int)
    ensures index == SetMemberIndex(members, identifier)
  {
    var n := ParseInt(identifier);
    if n.Some? && 0 <= n.value < |members| {
      return n.value;
    }
    index := -1;
    for a := 0 to |members|
      invariant index == LastUrlIndex(members[..a], identifier)
    {
      assert members[..a + 1][..a] == members[..a];
      if members[a].url == identifier {
        index := a;
      }
    }
    assert members[..|members|] == members;
  }

  /**
   * An identifier that does not read as an index of the set finds the last
   * member with that url, or -1 exactly when no member has it.
   */
  lemma MemberByUrl(members: seq<WebAlias>, identifier: string)
    requires ParseInt(identifier).None? || !(0 <= ParseInt(identifier).value < |members|)
    ensures SetMemberIndex(members, identifier) == -1 <==> forall k :: 0 <= k < |members| ==> members[k].url != identifier
    ensures SetMemberIndex(members, identifier) >= 0 ==>
      members[SetMemberIndex(members, identifier)].url == identifier
    ensures forall k :: SetMemberIndex(members, identifier) < k < |members| ==> members[k].url != identifier
  {
  }

  /** An identifier that reads as the index of a member finds that member, whatever its url. */
  lemma MemberByIndex(members: seq<WebAlias>, identifier: string, n: int)
    requires ParseInt(identifier) == Some(n) && 0 <= n < |members|
    ensures SetMemberIndex(members, identifier) == n
  {
  }

  /** `parseInt` stops at a decimal point: a digit followed by `.` and anything reads as that digit. */
  lemma ParseIntStopsAtPoint(d: char, rest: string)
    requires Core.IsDigit(d)
    ensures ParseInt([d, '.'] + rest) == Some(d as int - '0' as int)
  {
    var s := [d, '.'] + rest;
    assert !IsSpace(s[0]);
    assert !HexPrefixed(s);
    assert LeadingRun(s, Core.IsDigit) == [d] by {
      assert s[1..][0] == '.';
    }
    assert Core.DigitsValue([d]) == d as int - '0' as int;
  }

  /** An identifier such as `1.45` is read as the index 1 when the set has a member there. */
  lemma FractionalIndexIdentifier(members: seq<WebAlias>, d: char, rest: string)
    requires Core.IsDigit(d) && d as int - '0' as int < |members|
    ensures SetMemberIndex(members, [d, '.'] + rest) == d as int - '0' as int
  {
    ParseIntStopsAtPoint(d, rest);
  }

  /** `browser || 'default'`. */
  function BrowserOr(browser: Arg): string
  {
    if Truthy(browser) then browser.s else "default"
  }

  /** The hook `getBrowserExecutionString`, with `os.platform()` passed in. */
  function ExecutionString(site: WebAlias, defaultBrowser: string, platform: string): (r: string)
    ensures |site.url| < |r| && r[|r| - |site.url|..] == site.url
  {
    var browser := if site.browser == "default" then defaultBrowser else site.browser;
    if platform == "darwin" then
      if browser == "" then "open " + site.url else "open -a " + browser + " " + site.url
    else
      "start " + browser + " " + site.url
  }

  /**
   * The statement names the url last; outside macOS it is `start` with the
   * browser, and on macOS an empty browser opens the url with the system's choice.
   */
  lemma ExecutionStringShape(site: WebAlias, defaultBrowser: string, platform: string)
    ensures var r := ExecutionString(site, defaultBrowser, platform);
      |r| > |site.url| && r[|r| - |site.url| - 1..] == " " + site.url
    ensures platform != "darwin" ==>
      ExecutionString(site, defaultBrowser, platform)[..6] == "start "
    ensures platform == "darwin" && site.browser == "default" && defaultBrowser == "" ==>
      ExecutionString(site, defaultBrowser, platform) == "open " + site.url
  {
  }

  /**
   * Read word by word, the statement names the command, then the resolved
   * browser (the record's own, or the default one when it says `default`),
   * then the url: `start B url` outside macOS, `open -a B url` on macOS, and
   * `open url` on macOS when the resolved browser is empty.
   */
  lemma ExecutionStringWords(site: WebAlias, defaultBrowser: string, platform: string)
    requires ' ' !in site.url && ' ' !in site.browser && ' ' !in defaultBrowser
    ensures var b := if site.browser == "default" then defaultBrowser else site.browser;
      var words := Split(ExecutionString(site, defaultBrowser, platform), ' ');
      && (platform != "darwin" ==> words == ["start", b, site.url])
      && (platform == "darwin" && b == "" ==> words == ["open", site.url])
      && (platform == "darwin" && b != "" ==> words == ["open", "-a", b, site.url])
  {
    var b := if site.browser == "default" then defaultBrowser else site.browser;
    if platform != "darwin" {
      StartWords(b, site.url);
    } else if b == "" {
      OpenWords(site.url);
    } else {
      OpenNamedWords(b, site.url);
    }
  }

  lemma StartWords(b: string, url: string)
    requires ' ' !in b && ' ' !in url
    ensures Split("start " + b + " " + url, ' ') == ["start", b, url]
  {
    var sp := [' '];
    JoinCons(b, [url], sp);
    JoinCons("start", [b, url], sp);
    assert "start " + b + " " + url == "start" + sp + (b + sp + url);
    SplitJoin(["start", b, url], ' ');
  }

  lemma OpenWords(url: string)
    requires ' ' !in url
    ensures Split("open " + url, ' ') == ["open", url]
  {
    var sp := [' '];
    JoinCons("open", [url], sp);
    assert "open " + url == "open" + sp + url;
    SplitJoin(["open", url], ' ');
  }

  lemma OpenNamedWords(b: string, url: string)
    requires ' ' !in b && ' ' !in url
    ensures Split("open -a " + b + " " + url, ' ') == ["open", "-a", b, url]
  {
    var sp := [' '];
    JoinCons(b, [url], sp);
    JoinCons("-a", [b, url], sp);
    JoinCons("open", ["-a", b, url], sp);
    assert "open -a " + b + " " + url == "open" + sp + ("-a" + sp + (b + sp + url));
    SplitJoin(["open", "-a", b, url], ' ');
  }

  /** A record whose browser is `'default'` opens like one naming the default browser itself. */
  lemma DefaultBrowserResolved(url: string, defaultBrowser: string, platform: string)
    ensures ExecutionString(WebAlias(url, "default"), defaultBrowser, platform)
         == ExecutionString(WebAlias(url, defaultBrowser), defaultBrowser, platform)
  {
  }

  const BooleanRequired: string :=
    "You must provide a string representing a Boolean value (true/false, yes/no, or y/n)"

  /** `setWebAliasVerbose`. */
  function SetWebAliasVerboseOn(d: Data, setting: Arg): Result<Data>
  {
    if setting.Null? || !Core.IsBoolean(Core.Text(setting.s)) then Fail(BooleanRequired)
    else Ok(d.(verbose := Core.BooleanValue(Core.Text(setting.s))))
  }

  /** `setDefaultBrowser`: the word `default` stores the empty name (the system's choice). */
  function SetDefaultBrowserOn(d: Data, browser: Arg): Result<Data>
  {
    if browser.Null? then Fail("You must provide the name of a browser or 'default'.")
    else if browser.s == "default" then Ok(d.(defaultBrowser := ""))
    else Ok(d.(defaultBrowser := browser.s))
  }

  const DefaultBrowserHeading: string := "The current default browser for opening web pages with a command is: "

  /** What `getDefaultBrowser` shows. */
  function DefaultBrowserNotice(d: Data): string
  {
    DefaultBrowserHeading + (if d.defaultBrowser == "" then "System default browser" else d.defaultBrowser)
  }

  /**
   * The checks `createWebAlias` and `createWebAliasSet` share; `setWording`
   * is how the message names an existing set. None when the alias may be created.
   */
  function CreateFailure(d: Data, alias: Arg, url: Arg, setWording: string): (r: Option<string>)
    ensures r.None? <==> alias.Str? && url.Str? && alias.s !in d.aliases
  {
    if alias.Null? || url.Null? then Some("The web alias name and url parameters must be defined.")
    else if alias.s in d.aliases then
      if d.aliases[alias.s].Set? then
        Some("Alias '" + alias.s + "' already exists as " + setWording
             + "; use updateWebAliasSet or deleteWebAliasSet to change.")
      else
        Some("Alias '" + alias.s + "' already exists; use updateWebAlias or deleteWebAlias to change.")
    else None
  }

  /** `createWebAlias`: a missing or empty browser is stored as `'default'`. */
  function CreateWebAliasOn(d: Data, alias: Arg, url: Arg, browser: Arg): Result<Data>
  {
    match CreateFailure(d, alias, url, "an alias set")
    case Some(m) => Fail(m)
    case None => Ok(d.(aliases := d.aliases[alias.s := Single(WebAlias(url.s, BrowserOr(browser)))]))
  }

  /** `createWebAliasSet`: a set of the one record. */
  function CreateWebAliasSetOn(d: Data, alias: Arg, url: Arg, browser: Arg): Result<Data>
  {
    match CreateFailure(d, alias, url, "an web alias set")
    case Some(m) => Fail(m)
    case None => Ok(d.(aliases := d.aliases[alias.s := Set([WebAlias(url.s, BrowserOr(browser))])]))
  }

  /**
   * The checks of `updateWebAlias` and `updateWebAliasBrowser`: both arguments
   * given and `alias` a single record. `missing` and `setHint` are the words
   * that differ between the two.
   */
  function SingleFailure(d: Data, alias: Arg, value: Arg, missing: string, setHint: string): (r: Option<string>)
    ensures r.None? <==> alias.Str? && value.Str? && alias.s in d.aliases && d.aliases[alias.s].Single?
  {
    if alias.Null? || value.Null? then Some(missing)
    else if alias.s !in d.aliases then Some("Alias '" + alias.s + "' not found; use createWebAlias to create.")
    else if d.aliases[alias.s].Set? then
      Some("Alias '" + alias.s + "' belongs to an web alias set; use updateWebAliasSet to modify" + setHint + ".")
    else None
  }

  /** `updateWebAlias`: the url is replaced; the browser only when a non-empty one is given. */
  function UpdateWebAliasOn(d: Data, alias: Arg, url: Arg, browser: Arg): Result<Data>
  {
    match SingleFailure(d, alias, url, "The web alias name and url parameters must be defined.", "")
    case Some(m) => Fail(m)
    case None =>
      var site := d.aliases[alias.s].site;
      var browserAfter := if Truthy(browser) then browser.s else site.browser;
      Ok(d.(aliases := d.aliases[alias.s := Single(WebAlias(url.s, browserAfter))]))
  }

  /** `updateWebAliasBrowser`: only the browser of the record changes. */
  function UpdateWebAliasBrowserOn(d: Data, alias: Arg, browser: Arg): Result<Data>
  {
    match SingleFailure(d, alias, browser, "The web alias name and browser parameters must be defined.",
                        " the browser used with a URL in the set")
    case Some(m) => Fail(m)
    case None =>
      var site := d.aliases[alias.s].site;
      Ok(d.(aliases := d.aliases[alias.s := Single(site.(browser := browser.s))]))
  }

  /** The checks of `deleteWebAlias`; None when `alias` names a single record. */
  function DeleteFailure(d: Data, alias: Arg): (r: Option<string>)
    ensures r.None? <==> alias.Str? && alias.s in d.aliases && d.aliases[alias.s].Single?
  {
    if alias.Null? then Some("The web alias parameter must be defined.")
    else if alias.s !in d.aliases then Some("Alias '" + alias.s + "' not found.")
    else if d.aliases[alias.s].Set? then
      Some("Alias '" + alias.s + "' belongs to an web alias set; use deleteWebAliasSet to delete.")
    else None
  }

  /** `deleteWebAlias`. */
  function DeleteWebAliasOn(d: Data, alias: Arg): Result<Data>
  {
    match DeleteFailure(d, alias)
    case Some(m) => Fail(m)
    case None => Ok(d.(aliases := d.aliases - {alias.s}))
  }

  /** The checks of `deleteWebAliasSet`; None when `alias` names a set. */
  function DeleteSetFailure(d: Data, alias: Arg): (r: Option<string>)
    ensures r.None? <==> alias.Str? && alias.s in d.aliases && d.aliases[alias.s].Set?
  {
    if alias.Null? then Some("The alias parameter must be defined.")
    else if alias.s !in d.aliases then Some("Alias '" + alias.s + "' not found.")
    else if d.aliases[alias.s].Single? then Some("Alias '" + alias.s + "' does not match a web alias set.")
    else None
  }

  /** `deleteWebAliasSet`. */
  function DeleteWebAliasSetOn(d: Data, alias: Arg): Result<Data>
  {
    match DeleteSetFailure(d, alias)
    case Some(m) => Fail(m)
    case None => Ok(d.(aliases := d.aliases - {alias.s}))
  }

  /** The actions `updateWebAliasSet` knows. */
  datatype SetAction = Add | ChangeUrl | ChangeBrowser | Remove

  /** The action a word names: `add`, `url`, `browser` or `delete`. */
  function ActionOf(word: string): Option<SetAction>
  {
    if word == "add" then Some(Add)
    else if word == "url" then Some(ChangeUrl)
    else if word == "browser" then Some(ChangeBrowser)
    else if word == "delete" then Some(Remove)
    else None
  }

  const SetArgumentsRequired: string :=
    "The alias name, action ('add', 'url', 'browser' or 'delete') and url/alias index parameters must be defined."

  /** The checks of `updateWebAliasSet` before the member is looked for, in the source's order. */
  function UpdateSetFailure(d: Data, alias: Arg, action: Arg, urlOrIndex: Arg, newValue: Arg): (r: Option<string>)
    ensures r.None? <==>
      alias.Str? && action.Str? && urlOrIndex.Str? && ActionOf(action.s).Some?
      && (ActionOf(action.s) in {Some(ChangeUrl), Some(ChangeBrowser)} ==> Truthy(newValue))
      && alias.s in d.aliases && d.aliases[alias.s].Set?
  {
    if alias.Null? || action.Null? || urlOrIndex.Null? then Some(SetArgumentsRequired)
    else if ActionOf(action.s).None? then Some("The action must be either 'add', 'url', 'browser' or 'delete'.")
    else if ActionOf(action.s) in {Some(ChangeUrl), Some(ChangeBrowser)} && !Truthy(newValue) then
      Some("When using the '" + action.s
           + "' action, you must provide both a url/alias index and the new url or browser to use with that alias.")
    else if alias.s !in d.aliases then Some("Alias set '" + alias.s + "' not found; use createWebAliasSet to create.")
    else if d.aliases[alias.s].Single? then Some("Alias '" + alias.s + "' does not match a web alias set.")
    else None
  }

  /**
   * `updateWebAliasSet`: `add` pushes a record; `url` and `browser` rewrite
   * one field of the member `findSetMemberIndex` finds and `delete` splices
   * it out; a member not found is an error.
   */
  function UpdateWebAliasSetOn(d: Data, alias: Arg, action: Arg, urlOrIndex: Arg, newValue: Arg): Result<Data>
  {
    match UpdateSetFailure(d, alias, action, urlOrIndex, newValue)
    case Some(m) => Fail(m)
    case None => EditSet(d, alias.s, ActionOf(action.s).value, urlOrIndex.s, newValue)
  }

  /** `updateWebAliasSet` past its checks: find the member unless adding, then edit the set. */
  function EditSet(d: Data, alias: string, act: SetAction, urlOrIndex: string, newValue: Arg): Result<Data>
    requires alias in d.aliases && d.aliases[alias].Set?
    requires act in {ChangeUrl, ChangeBrowser} ==> Truthy(newValue)
  {
    var members := d.aliases[alias].members;
    var i := if act == Add then |members| else SetMemberIndex(members, urlOrIndex);
    if i == -1 then Fail("URL alias instance '" + urlOrIndex + "' not found in alias set '" + alias + "'.")
    else Ok(d.(aliases := d.aliases[alias := Set(EditedMembers(members, act, i, urlOrIndex, newValue))]))
  }

  /**
   * The set after one action: `add` pushes a record with the given url,
   * `url`/`browser` rewrite that field of member `i`, `delete` splices it out.
   */
  function EditedMembers(members: seq<WebAlias>, act: SetAction, i: nat, url: string, newValue: Arg): seq<WebAlias>
    requires act == Add || i < |members|
    requires act in {ChangeUrl, ChangeBrowser} ==> newValue.Str?
  {
    match act
    case Add => members + [WebAlias(url, BrowserOr(newValue))]
    case ChangeUrl => members[i := members[i].(url := newValue.s)]
    case ChangeBrowser => members[i := members[i].(browser := newValue.s)]
    case Remove => RemoveAt(members, i)
  }

  /** The statements `web` hands to the shell: one per member of a set, in order. */
  function WebOn(d: Data, alias: Arg, platform: string): (r: Result<seq<string>>)
    ensures r.Ok? <==> alias.Str? && alias.s in d.aliases
    ensures r.Ok? && d.aliases[alias.s].Single? ==> |r.value| == 1
    ensures r.Ok? && d.aliases[alias.s].Set? ==> |r.value| == |d.aliases[alias.s].members|
  {
    if alias.Null? then Fail("The web alias parameter must be defined.")
    else if alias.s !in d.aliases then Fail("The web alias '" + alias.s + "' not found.")
    else match d.aliases[alias.s]
      case Single(site) => Ok([ExecutionString(site, d.defaultBrowser, platform)])
      case Set(members) =>
        Ok(seq(|members|, i requires 0 <= i < |members| => ExecutionString(members[i], d.defaultBrowser, platform)))
  }

  /** The `getWebAlias` hook. */
  function GetWebAliasOn(d: Data, alias: Arg): (r: Result<AliasValue>)
    ensures r.Ok? <==> alias.Str? && alias.s in d.aliases
    ensures r.Ok? ==> r.value == d.aliases[alias.s]
  {
    if alias.Null? then Fail("The web alias parameter must be defined.")
    else if alias.s !in d.aliases then Fail("Web alias '" + alias.s + "' not found.")
    else Ok(d.aliases[alias.s])
  }

  /** A command's outcome and the state it leaves, as its specification function has them. */
  predicate Done(r: Result<()>, before: Data, after: Data, spec: Result<Data>)
  {
    match spec
    case Err(m) => r == Err(m) && after == before
    case Ok(d) => r == Ok(()) && after == d
  }

  /** The module-level `data` object and the commands that update it. */
  class Sites {
    var verbose: bool
    var defaultBrowser: string
    var aliases: map<string, AliasValue>

    function State(): Data
      reads this
    {
      Data(verbose, defaultBrowser, aliases)
    }

    /** The data as loaded from the module's data file. */
    constructor(loaded: Data)
      ensures State() == loaded
    {
      verbose := loaded.verbose;
      defaultBrowser := loaded.defaultBrowser;
      aliases := loaded.aliases;
    }

    method SetWebAliasVerbose(setting: Arg) returns (r: Result<()>)
      modifies this
      ensures Done(r, old(State()), State(), SetWebAliasVerboseOn(old(State()), setting))
    {
      if setting.Null? || !Core.IsBoolean(Core.Text(setting.s)) {
        return Fail(BooleanRequired);
      }
      verbose := Core.BooleanValue(Core.Text(setting.s));
      return Ok(());
    }

    method SetDefaultBrowser(browser: Arg) returns (r: Result<()>)
      modifies this
      ensures Done(r, old(State()), State(), SetDefaultBrowserOn(old(State()), browser))
    {
      if browser.Null? {
        return Fail("You must provide the name of a browser or 'default'.");
      }
      if browser.s == "default" {
        defaultBrowser := "";
      } else {
        defaultBrowser := browser.s;
      }
      return Ok(());
    }

    /** `getDefaultBrowser`: what it shows. */
    method GetDefaultBrowser() returns (notice: string)
      ensures notice == DefaultBrowserNotice(State())
    {
      var shown := if defaultBrowser == "" then "System default browser" else defaultBrowser;
      notice := DefaultBrowserHeading + shown;
    }

    method CreateWebAlias(alias: Arg, url: Arg, browser: Arg) returns (r: Result<()>)
      modifies this
      ensures Done(r, old(State()), State(), CreateWebAliasOn(old(State()), alias, url, browser))
    {
      var failure := CreateFailure(State(), alias, url, "an alias set");
      if failure.Some? {
        return Fail(failure.value);
      }
      aliases := aliases[alias.s := Single(WebAlias(url.s, BrowserOr(browser)))];
      return Ok(());
    }

    method UpdateWebAlias(alias: Arg, url: Arg, browser: Arg) returns (r: Result<()>)
      modifies this
      ensures Done(r, old(State()), State(), UpdateWebAliasOn(old(State()), alias, url, browser))
    {
      var failure := SingleFailure(State(), alias, url, "The web alias name and url parameters must be defined.", "");
      if failure.Some? {
        return Fail(failure.value);
      }
      var site := aliases[alias.s].site.(url := url.s);
      if Truthy(browser) {
        site := site.(browser := browser.s);
      }
      aliases := aliases[alias.s := Single(site)];
      return Ok(());
    }

    method DeleteWebAlias(alias: Arg) returns (r: Result<()>)
      modifies this
      ensures Done(r, old(State()), State(), DeleteWebAliasOn(old(State()), alias))
    {
      var failure := DeleteFailure(State(), alias);
      if failure.Some? {
        return Fail(failure.value);
      }
      aliases := aliases - {alias.s};
      return Ok(());
    }

    method UpdateWebAliasBrowser(alias: Arg, browser: Arg) returns (r: Result<()>)
      modifies this
      ensures Done(r, old(State()), State(), UpdateWebAliasBrowserOn(old(State()), alias, browser))
    {
      var failure := SingleFailure(State(), alias, browser, "The web alias name and browser parameters must be defined.",
                                   " the browser used with a URL in the set");
      if failure.Some? {
        return Fail(failure.value);
      }
      aliases := aliases[alias.s := Single(aliases[alias.s].site.(browser := browser.s))];
      return Ok(());
    }

    method CreateWebAliasSet(alias: Arg, url: Arg, browser: Arg) returns (r: Result<()>)
      modifies this
      ensures Done(r, old(State()), State(), CreateWebAliasSetOn(old(State()), alias, url, browser))
    {
      var failure := CreateFailure(State(), alias, url, "an web alias set");
      if failure.Some? {
        return Fail(failure.value);
      }
      aliases := aliases[alias.s := Set([WebAlias(url.s, BrowserOr(browser))])];
      return Ok(());
    }

    method UpdateWebAliasSet(alias: Arg, action: Arg, urlOrIndex: Arg, newValue: Arg) returns (r: Result<()>)
      modifies this
      ensures Done(r, old(State()), State(), UpdateWebAliasSetOn(old(State()), alias, action, urlOrIndex, newValue))
    {
      var failure := UpdateSetFailure(State(), alias, action, urlOrIndex, newValue);
      if failure.Some? {
        return Fail(failure.value);
      }
      var members := aliases[alias.s].members;
      var act := ActionOf(action.s).value;
      if act == Add {
        aliases := aliases[alias.s := Set(members + [WebAlias(urlOrIndex.s, BrowserOr(newValue))])];
        return Ok(());
      }
      var aliasIndex := FindSetMemberIndex(members, urlOrIndex.s);
      if aliasIndex == -1 {
        return Fail("URL alias instance '" + urlOrIndex.s + "' not found in alias set '" + alias.s + "'.");
      }
      if act == ChangeUrl {
        aliases := aliases[alias.s := Set(members[aliasIndex := members[aliasIndex].(url := newValue.s)])];
      } else if act == ChangeBrowser {
        aliases := aliases[alias.s := Set(members[aliasIndex := members[aliasIndex].(browser := newValue.s)])];
      } else {
        aliases := aliases[alias.s := Set(RemoveAt(members, aliasIndex))];
      }
      return Ok(());
    }

    method DeleteWebAliasSet(alias: Arg) returns (r: Result<()>)
      modifies this
      ensures Done(r, old(State()), State(), DeleteWebAliasSetOn(old(State()), alias))
    {
      var failure := DeleteSetFailure(State(), alias);
      if failure.Some? {
        return Fail(failure.value);
      }
      aliases := aliases - {alias.s};
      return Ok(());
    }

    /** `web`: the statements executed, one per member of a set, in the set's order. */
    method Web(alias: Arg, platform: string) returns (r: Result<seq<string>>)
      ensures r == WebOn(State(), alias, platform)
    {
      if alias.Null? {
        return Fail("The web alias parameter must be defined.");
      } else if alias.s !in aliases {
        return Fail("The web alias '" + alias.s + "' not found.");
      }
      match aliases[alias.s]
      case Single(site) =>
        return Ok([ExecutionString(site, defaultBrowser, platform)]);
      case Set(members) =>
        var browser := defaultBrowser;
        var statements := [];
        for i := 0 to |members|
          invariant |statements| == i
          invariant forall k :: 0 <= k < i ==> statements[k] == ExecutionString(members[k], browser, platform)
        {
          statements := statements + [ExecutionString(members[i], browser, platform)];
        }
        assert statements == seq(|members|, i requires 0 <= i < |members| => ExecutionString(members[i], browser, platform));
        return Ok(statements);
    }

    /** The `getWebAlias` hook. */
    method GetWebAlias(alias: Arg) returns (r: Result<AliasValue>)
      ensures r == GetWebAliasOn(State(), alias)
    {
      if alias.Null? {
        return Fail("The web alias parameter must be defined.");
      } else if alias.s !in aliases {
        return Fail("Web alias '" + alias.s + "' not found.");
      }
      return Ok(aliases[alias.s]);
    }
  }

  /** Everything but the alias table is the same in both. */
  predicate SameButAliases(d: Data, e: Data)
  {
    e.(aliases := d.aliases) == d
  }

  /**
   * `setWebAliasVerbose` succeeds exactly on Boolean strings, stores their
   * reading, and leaves the default browser and the aliases alone; any other
   * setting is refused with the Boolean message.
   */
  lemma SetWebAliasVerboseEffect(d: Data, setting: Arg)
    ensures SetWebAliasVerboseOn(d, setting).Ok? <==> setting.Str? && Core.IsBoolean(Core.Text(setting.s))
    ensures SetWebAliasVerboseOn(d, setting).Ok? ==>
      SetWebAliasVerboseOn(d, setting).value == d.(verbose := Core.BooleanValue(Core.Text(setting.s)))
    ensures SetWebAliasVerboseOn(d, setting).Err? ==> SetWebAliasVerboseOn(d, setting) == Fail(BooleanRequired)
  {
  }

  /** `setDefaultBrowser default` stores the empty name, which `getDefaultBrowser` shows as the system's. */
  lemma DefaultWord(d: Data)
    ensures SetDefaultBrowserOn(d, Str("default")) == Ok(d.(defaultBrowser := ""))
    ensures DefaultBrowserNotice(d.(defaultBrowser := "")) == DefaultBrowserHeading + "System default browser"
  {
  }

  /** Any other name is stored as it is, and nothing else changes. */
  lemma NamedDefaultBrowser(d: Data, browser: string)
    requires browser != "default"
    ensures SetDefaultBrowserOn(d, Str(browser)) == Ok(d.(defaultBrowser := browser))
  {
  }

  /** `createWebAlias` adds only the new record; `deleteWebAlias` then gives the data back. */
  lemma CreateWebAliasThenDelete(d: Data, alias: string, url: string, browser: Arg)
    requires alias !in d.aliases
    ensures CreateWebAliasOn(d, Str(alias), Str(url), browser).Ok?
    ensures var e := CreateWebAliasOn(d, Str(alias), Str(url), browser).value;
      SameButAliases(d, e) && e.aliases.Keys == d.aliases.Keys + {alias}
      && e.aliases[alias] == Single(WebAlias(url, if Truthy(browser) then browser.s else "default"))
      && DeleteWebAliasOn(e, Str(alias)) == Ok(d)
  {
    var e := CreateWebAliasOn(d, Str(alias), Str(url), browser).value;
    assert e.aliases - {alias} == d.aliases;
  }

  /** `createWebAliasSet` adds a one-record set; `deleteWebAliasSet` then gives the data back. */
  lemma CreateWebAliasSetThenDelete(d: Data, alias: string, url: string, browser: Arg)
    requires alias !in d.aliases
    ensures CreateWebAliasSetOn(d, Str(alias), Str(url), browser).Ok?
    ensures var e := CreateWebAliasSetOn(d, Str(alias), Str(url), browser).value;
      SameButAliases(d, e) && e.aliases[alias] == Set([WebAlias(url, BrowserOr(browser))])
      && DeleteWebAliasSetOn(e, Str(alias)) == Ok(d)
  {
    var e := CreateWebAliasSetOn(d, Str(alias), Str(url), browser).value;
    assert e.aliases - {alias} == d.aliases;
  }

  /**
   * `updateWebAlias` always takes the new url and keeps the old browser unless
   * a non-empty one is given; `updateWebAliasBrowser` keeps the url.
   */
  lemma UpdateWebAliasFields(d: Data, alias: string, url: string, browser: Arg)
    requires alias in d.aliases && d.aliases[alias].Single?
    ensures UpdateWebAliasOn(d, Str(alias), Str(url), browser).Ok?
    ensures var e := UpdateWebAliasOn(d, Str(alias), Str(url), browser).value;
      SameButAliases(d, e) && e.aliases.Keys == d.aliases.Keys
      && e.aliases[alias].site.url == url
      && (Truthy(browser) ==> e.aliases[alias].site.browser == browser.s)
      && (!Truthy(browser) ==> e.aliases[alias].site.browser == d.aliases[alias].site.browser)
      && (forall k :: k in d.aliases && k != alias ==> e.aliases[k] == d.aliases[k])
    ensures browser.Str? ==>
      var e := UpdateWebAliasBrowserOn(d, Str(alias), browser).value;
      SameButAliases(d, e)
      && e.aliases == d.aliases[alias := Single(WebAlias(d.aliases[alias].site.url, browser.s))]
  {
  }

  /** The single-record commands refuse sets, and the other way round. */
  lemma KindsKeptApart(d: Data, alias: string, value: Arg)
    requires alias in d.aliases
    ensures d.aliases[alias].Set? ==>
      UpdateWebAliasOn(d, Str(alias), value, value).Err? && UpdateWebAliasBrowserOn(d, Str(alias), value).Err?
      && DeleteWebAliasOn(d, Str(alias)).Err?
    ensures d.aliases[alias].Single? ==> DeleteWebAliasSetOn(d, Str(alias)).Err?
  {
    if d.aliases[alias].Set? {
      assert SingleFailure(d, Str(alias), value, "The web alias name and url parameters must be defined.", "").Some?;
      assert SingleFailure(d, Str(alias), value, "The web alias name and browser parameters must be defined.",
                           " the browser used with a URL in the set").Some?;
      assert DeleteFailure(d, Str(alias)).Some?;
    } else {
      assert DeleteSetFailure(d, Str(alias)).Some?;
    }
  }

  /**
   * `add` appends a record; deleting by that record's url (one no member had,
   * starting with a letter so it is not read as an index) gives the data back.
   */
  lemma AddThenDeleteByUrl(d: Data, alias: string, url: string, browser: Arg)
    requires alias in d.aliases && d.aliases[alias].Set?
    requires url != [] && ('a' <= url[0] <= 'z' || 'A' <= url[0] <= 'Z')
    requires forall k :: 0 <= k < |d.aliases[alias].members| ==> d.aliases[alias].members[k].url != url
    ensures UpdateWebAliasSetOn(d, Str(alias), Str("add"), Str(url), browser).Ok?
    ensures var e := UpdateWebAliasSetOn(d, Str(alias), Str("add"), Str(url), browser).value;
      SameButAliases(d, e)
      && e.aliases == d.aliases[alias := Set(d.aliases[alias].members + [WebAlias(url, BrowserOr(browser))])]
      && UpdateWebAliasSetOn(e, Str(alias), Str("delete"), Str(url), browser) == Ok(d)
  {
    var members := d.aliases[alias].members;
    var e := d.(aliases := d.aliases[alias := Set(members + [WebAlias(url, BrowserOr(browser))])]);
    assert ActionOf("add") == Some(Add) && ActionOf("delete") == Some(Remove);
    AddRecord(d, alias, "add", url, browser);
    DeleteAppended(d, e, alias, "delete", url, browser);
  }

  lemma AddRecord(d: Data, alias: string, add: string, url: string, browser: Arg)
    requires alias in d.aliases && d.aliases[alias].Set? && ActionOf(add) == Some(Add)
    ensures UpdateWebAliasSetOn(d, Str(alias), Str(add), Str(url), browser)
         == Ok(d.(aliases := d.aliases[alias := Set(d.aliases[alias].members + [WebAlias(url, BrowserOr(browser))])]))
  {
  }

  lemma DeleteAppended(d: Data, e: Data, alias: string, delete: string, url: string, browser: Arg)
    requires alias in d.aliases && d.aliases[alias].Set? && ActionOf(delete) == Some(Remove)
    requires url != [] && ('a' <= url[0] <= 'z' || 'A' <= url[0] <= 'Z')
    requires forall k :: 0 <= k < |d.aliases[alias].members| ==> d.aliases[alias].members[k].url != url
    requires e == d.(aliases := d.aliases[alias := Set(d.aliases[alias].members + [WebAlias(url, BrowserOr(browser))])])
    ensures UpdateWebAliasSetOn(e, Str(alias), Str(delete), Str(url), browser) == Ok(d)
  {
    var members := d.aliases[alias].members;
    var site := WebAlias(url, BrowserOr(browser));
    AppendedUrlFound(members, site);
    ChecksPass(e, alias, delete, Remove, url, browser);
    assert EditSet(e, alias, Remove, url, browser) == Ok(e.(aliases := e.aliases[alias := Set(members)]));
    assert e.aliases[alias := Set(members)] == d.aliases;
  }

  /**
   * On an alias set, an action word with the value it needs passes the
   * checks, and the command goes on to edit the set.
   */
  lemma ChecksPass(d: Data, alias: string, word: string, act: SetAction, identifier: string, newValue: Arg)
    requires alias in d.aliases && d.aliases[alias].Set? && ActionOf(word) == Some(act)
    requires act in {ChangeUrl, ChangeBrowser} ==> Truthy(newValue)
    ensures UpdateSetFailure(d, Str(alias), Str(word), Str(identifier), newValue).None?
    ensures UpdateWebAliasSetOn(d, Str(alias), Str(word), Str(identifier), newValue)
         == EditSet(d, alias, act, identifier, newValue)
  {
  }

  /**
   * `url`, `browser` and `delete` act on the member `findSetMemberIndex`
   * finds: the first two keep the length and change one field of that one
   * member, `delete` removes exactly that member.
   */
  lemma EditMember(d: Data, alias: string, identifier: string, value: string)
    requires alias in d.aliases && d.aliases[alias].Set? && value != []
    requires SetMemberIndex(d.aliases[alias].members, identifier) >= 0
    ensures var members := d.aliases[alias].members;
      var i := SetMemberIndex(members, identifier);
      var byUrl := UpdateWebAliasSetOn(d, Str(alias), Str("url"), Str(identifier), Str(value));
      var byBrowser := UpdateWebAliasSetOn(d, Str(alias), Str("browser"), Str(identifier), Str(value));
      var deleted := UpdateWebAliasSetOn(d, Str(alias), Str("delete"), Str(identifier), Str(value));
      && byUrl.Ok? && byBrowser.Ok? && deleted.Ok?
      && SameButAliases(d, byUrl.value) && SameButAliases(d, byBrowser.value) && SameButAliases(d, deleted.value)
      && byUrl.value.aliases == d.aliases[alias := Set(members[i := WebAlias(value, members[i].browser)])]
      && byBrowser.value.aliases == d.aliases[alias := Set(members[i := WebAlias(members[i].url, value)])]
      && deleted.value.aliases == d.aliases[alias := Set(RemoveAt(members, i))]
      && multiset(RemoveAt(members, i)) == multiset(members) - multiset{members[i]}
  {
    assert ActionOf("url") == Some(ChangeUrl) && ActionOf("browser") == Some(ChangeBrowser)
        && ActionOf("delete") == Some(Remove);
    ChecksPass(d, alias, "url", ChangeUrl, identifier, Str(value));
    ChecksPass(d, alias, "browser", ChangeBrowser, identifier, Str(value));
    ChecksPass(d, alias, "delete", Remove, identifier, Str(value));
    RemoveAtMultiset(d.aliases[alias].members, SetMemberIndex(d.aliases[alias].members, identifier));
  }

  /** A record appended under a new url that is not read as an index is the one its url finds. */
  lemma AppendedUrlFound(members: seq<WebAlias>, site: WebAlias)
    requires site.url != [] && ('a' <= site.url[0] <= 'z' || 'A' <= site.url[0] <= 'Z')
    requires forall k :: 0 <= k < |members| ==> members[k].url != site.url
    ensures SetMemberIndex(members + [site], site.url) == |members|
    ensures RemoveAt(members + [site], |members|) == members
  {
    ParseIntOfWord(site.url);
    assert (members + [site])[|members|].url == site.url;
  }

  /** A member that cannot be found is an error for `url`, `browser` and `delete`, naming the identifier. */
  lemma MemberNotFound(d: Data, alias: string, action: string, identifier: string, value: string)
    requires alias in d.aliases && d.aliases[alias].Set? && value != []
    requires action == "url" || action == "browser" || action == "delete"
    requires SetMemberIndex(d.aliases[alias].members, identifier) == -1
    ensures UpdateWebAliasSetOn(d, Str(alias), Str(action), Str(identifier), Str(value))
         == Fail("URL alias instance '" + identifier + "' not found in alias set '" + alias + "'.")
  {
  }

  /** `web` on a set gives one statement per member, in the set's order; on a single record, one. */
  lemma WebStatements(d: Data, alias: string, platform: string)
    requires alias in d.aliases
    ensures WebOn(d, Str(alias), platform).Ok?
    ensures var ss := WebOn(d, Str(alias), platform).value;
      match d.aliases[alias]
      case Single(site) => ss == [ExecutionString(site, d.defaultBrowser, platform)]
      case Set(members) => (|ss| == |members|
        && forall k :: 0 <= k < |members| ==> ss[k] == ExecutionString(members[k], d.defaultBrowser, platform))
  {
  }
}
