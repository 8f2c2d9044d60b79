/**
 * A jlink profile (in the later application: a task): the settings of one
 * `jlink` run, the command line built from them, and the check that the
 * files it names exist.
 */
module ProfileModel {
  import opened Wrappers
  import opened Strings
  import opened Collections

  /** The application preferences the command builder reads, plus the
      platform's `File.pathSeparator` (":" or ";"). */
  datatype Options = Options(jlinkDebug: bool, jlinkVerbose: bool, jlinkPath: string, pathSeparator: string)

  /** One module-path entry: a directory and the modules picked from it. */
  datatype ModulePath = ModulePath(directory: string, selectedModules: seq<string>)

  /** The persisted fields of a profile. A `File` is its path; an absent
      reference is `None`. `modulePaths` stays `None` until first read. */
  datatype Profile = Profile(
    id: string,
    name: string,
    description: Option<string>,
    jlink: string,
    output: Option<string>,
    launcher: string,
    bindServices: bool,
    ignoreSigning: bool,
    noHeaders: bool,
    noManPages: bool,
    stripDebug: bool,
    compress: int,
    endian: int,
    modulePaths: Option<seq<ModulePath>>,
    lastRun: int)
  {
    /** `compareTo`: by name, in `String.compareTo` order. */
    function CompareTo(other: Profile): (r: int)
      ensures r == 0 <==> name == other.name
      ensures r <= 0 <==> LexLeq(name, other.name)
      ensures r >= 0 <==> LexLeq(other.name, name)
    {
      Strings.CompareToAntisymmetric(name, other.name);
      Strings.CompareTo(name, other.name)
    }

    /** `getDescription`: never null. */
    function Description(): (r: string)
      ensures description.Some? ==> r == description.value
      ensures description.None? ==> r == ""
    {
      description.GetOr("")
    }

    /** `getOutputAsString`. */
    function OutputAsString(): (r: string)
      ensures output.Some? ==> r == output.value
      ensures output.None? ==> r == ""
    {
      output.GetOr("")
    }

    /** `getJlinkString`: the profile's own jlink unless it is blank, else the preference. */
    function JlinkString(o: Options): (r: string)
      ensures !IsBlank(jlink) ==> r == jlink
      ensures IsBlank(jlink) ==> r == o.jlinkPath
    {
      if IsBlank(jlink) then o.jlinkPath else jlink
    }

    /** `getModulePaths`: installs an empty list on first read. Returns the
        profile as it is afterwards together with the list. */
    function WithModulePaths(): (r: (Profile, seq<ModulePath>))
      ensures r.0.modulePaths == Some(r.1)
      ensures modulePaths.Some? ==> r.0 == this && r.1 == modulePaths.value
      ensures modulePaths.None? ==> r.0 == this.(modulePaths := Some([])) && r.1 == []
    {
      match modulePaths
      case Some(mps) => (this, mps)
      case None => (this.(modulePaths := Some([])), [])
    }
  }

  /** `new Profile()` with the given id. The name, the jlink and the
      launcher, which the code leaves null, are "" here. */
  function NewProfile(id: string): (p: Profile)
    ensures p.id == id && p.name == "" && p.modulePaths.None? && p.output.None?
  {
    Profile(id, "", None, "", None, "", false, false, false, false, false, 0, 0, None, 0)
  }

  // ---------------------------------------------------------------------
  // getCommand

  const DEBUG_FLAG := "-J-Djlink.debug=true"
  const VERBOSE_FLAG := "--verbose"
  const BIND_SERVICES_FLAG := "--bind-services"
  const IGNORE_SIGNING_FLAG := "--ignore-signing-information"
  const NO_HEADERS_FLAG := "--no-header-files"
  const NO_MAN_PAGES_FLAG := "--no-man-pages"
  const STRIP_DEBUG_FLAG := "--strip-debug"
  const COMPRESS_PREFIX := "--compress="
  const ENDIAN_PREFIX := "--endian "
  const MODULE_PATH_OPTION := "--module-path"
  const ADD_MODULES_OPTION := "--add-modules"
  const LAUNCHER_OPTION := "--launcher"
  const OUTPUT_OPTION := "--output"

  /** What `getCommand` dereferences without a check: the output and the
      module-path list must be set, and the endian index must lie inside
      the three-element name table. */
  predicate CanBuildCommand(p: Profile) {
    p.output.Some? && p.modulePaths.Some? && p.endian <= 2
  }

  /** Entry `e` of the table `{"", "little", "big"}`. */
  function EndianName(e: int): (r: string)
    requires 0 < e <= 2
    ensures e == 1 ==> r == "little"
    ensures e == 2 ==> r == "big"
  {
    if e == 1 then "little" else "big"
  }

  function Flag(on: bool, token: string): seq<string> {
    if on then [token] else []
  }

  /** The seven on/off switches, in the order `getCommand` emits them. */
  const SWITCHES: seq<string> := [DEBUG_FLAG, VERBOSE_FLAG, BIND_SERVICES_FLAG, IGNORE_SIGNING_FLAG,
                                  NO_HEADERS_FLAG, NO_MAN_PAGES_FLAG, STRIP_DEBUG_FLAG]

  /** Which of `SWITCHES` are on for profile `p` under options `o`. */
  function SwitchesOf(p: Profile, o: Options): (on: seq<bool>)
    ensures |on| == |SWITCHES|
  {
    [o.jlinkDebug, o.jlinkVerbose, p.bindServices, p.ignoreSigning, p.noHeaders, p.noManPages, p.stripDebug]
  }

  /** The tokens of the switches from position `k` on that are on, in order. */
  function SwitchArgs(on: seq<bool>, tokens: seq<string>, k: nat): (r: seq<string>)
    requires |on| == |tokens| && k <= |tokens|
    ensures forall i :: 0 <= i < |r| ==> exists j :: k <= j < |tokens| && r[i] == tokens[j]
    decreases |tokens| - k
  {
    if k == |tokens| then []
    else
      var rest := SwitchArgs(on, tokens, k + 1);
      var r := Flag(on[k], tokens[k]) + rest;
      assert forall i :: 0 <= i < |r| ==> r[i] == tokens[k] || r[i] in rest;
      r
  }

  function CompressArg(compress: int): string {
    COMPRESS_PREFIX + IntToString(compress)
  }

  function EndianArgs(endian: int): seq<string>
    requires endian <= 2
  {
    if endian > 0 then [ENDIAN_PREFIX + EndianName(endian)] else []
  }

  /** The directories of the module paths, in order. */
  function Directories(mps: seq<ModulePath>): (r: seq<string>)
    ensures |r| == |mps| && forall i :: 0 <= i < |mps| ==> r[i] == mps[i].directory
  {
    seq(|mps|, i requires 0 <= i < |mps| => mps[i].directory)
  }

  /** All selected modules, module path after module path. */
  function Modules(mps: seq<ModulePath>): (r: seq<string>)
    ensures forall m :: m in r <==> exists i :: 0 <= i < |mps| && m in mps[i].selectedModules
    decreases |mps|
  {
    if mps == [] then []
    else
      var init := mps[..|mps| - 1];
      var r := Modules(init) + mps[|mps| - 1].selectedModules;
      assert forall i :: 0 <= i < |init| ==> init[i] == mps[i];
      r
  }

  /** One module path contributes its selection as it stands. */
  lemma ModulesOfOne(m: ModulePath)
    ensures Modules([m]) == m.selectedModules
  {
    var one := [m];
    assert one[..0] == [];
  }

  /** The module list is the concatenation of the selections in path
      order, repeats included. */
  lemma {:induction false} ModulesAppend(a: seq<ModulePath>, b: seq<ModulePath>)
    ensures Modules(a + b) == Modules(a) + Modules(b)
    decreases |b|
  {
    if b == [] {
      assert a + b == a;
    } else {
      var init := b[..|b| - 1];
      assert (a + b)[..|a + b| - 1] == a + init;
      assert (a + b)[|a + b| - 1] == b[|b| - 1];
      ModulesAppend(a, init);
    }
  }

  function ModuleArgs(mps: seq<ModulePath>, o: Options): seq<string> {
    [MODULE_PATH_OPTION, Join(o.pathSeparator, Directories(mps)), ADD_MODULES_OPTION, Join(",", Modules(mps))]
  }

  function LauncherArgs(launcher: string): seq<string> {
    if IsBlank(launcher) then [] else [LAUNCHER_OPTION, launcher]
  }

  /** The argument list `getCommand` returns. */
  function CommandLine(p: Profile, o: Options): (r: seq<string>)
    requires CanBuildCommand(p)
    ensures |r| >= 8 && r[0] == p.JlinkString(o)
    ensures r[|r| - 2..] == [OUTPUT_OPTION, p.output.value]
  {
    [p.JlinkString(o)]
    + SwitchArgs(SwitchesOf(p, o), SWITCHES, 0)
    + [CompressArg(p.compress)]
    + EndianArgs(p.endian)
    + ModuleArgs(p.modulePaths.value, o)
    + LauncherArgs(p.launcher)
    + [OUTPUT_OPTION, p.output.value]
  }

  /** The module-path loop of `getCommand`: every directory, and every
      selected module, module path after module path. */
  method CollectModulePaths(mps: seq<ModulePath>) returns (paths: seq<string>, modules: seq<string>)
    ensures paths == Directories(mps) && modules == Modules(mps)
  {
    paths := [];
    modules := [];
    var i := 0;
    while i < |mps|
      invariant 0 <= i <= |mps|
      invariant paths == Directories(mps[..i])
      invariant modules == Modules(mps[..i])
    {
      assert mps[..i + 1][..i] == mps[..i];
      paths := paths + [mps[i].directory];
      modules := modules + mps[i].selectedModules;
      i := i + 1;
    }
    assert mps[..|mps|] == mps;
  }

  /** One `if (on) command.add(token)` step of `getCommand`. */
  method AddIf(command: seq<string>, on: bool, token: string) returns (r: seq<string>)
    ensures r == command + Flag(on, token)
  {
    r := command;
    if on { r := r + [token]; }
  }

  /** `getCommand`: appends the arguments one by one. */
  method GetCommand(p: Profile, o: Options) returns (command: seq<string>)
    requires CanBuildCommand(p)
    ensures command == CommandLine(p, o)
  {
    command := AppendSwitches([p.JlinkString(o)], p, o);
    command := command + [CompressArg(p.compress)];
    command := AppendEndian(command, p.endian);
    command := AppendModuleArgs(command, p.modulePaths.value, o);
    command := AppendLauncher(command, p.launcher);
    command := command + [OUTPUT_OPTION, p.output.value];
  }

  /** The switch part of `getCommand`, in the order the code adds them. */
  method AppendSwitches(start: seq<string>, p: Profile, o: Options) returns (command: seq<string>)
    ensures command == start + SwitchArgs(SwitchesOf(p, o), SWITCHES, 0)
  {
    command := AddIf(start, o.jlinkDebug, DEBUG_FLAG);
    command := AddIf(command, o.jlinkVerbose, VERBOSE_FLAG);
    command := AddIf(command, p.bindServices, BIND_SERVICES_FLAG);
    command := AddIf(command, p.ignoreSigning, IGNORE_SIGNING_FLAG);
    command := AddIf(command, p.noHeaders, NO_HEADERS_FLAG);
    command := AddIf(command, p.noManPages, NO_MAN_PAGES_FLAG);
    command := AddIf(command, p.stripDebug, STRIP_DEBUG_FLAG);
    SwitchesAppended(start, p, o);
  }

  /** `--endian` only for a positive index. */
  method AppendEndian(start: seq<string>, endian: int) returns (command: seq<string>)
    requires endian <= 2
    ensures command == start + EndianArgs(endian)
  {
    command := start;
    if endian > 0 { command := command + [ENDIAN_PREFIX + EndianName(endian)]; }
  }

  /** `--module-path` with the joined directories, `--add-modules` with the joined names. */
  method AppendModuleArgs(start: seq<string>, mps: seq<ModulePath>, o: Options) returns (command: seq<string>)
    ensures command == start + ModuleArgs(mps, o)
  {
    var paths, modules := CollectModulePaths(mps);
    command := start + [MODULE_PATH_OPTION, Join(o.pathSeparator, paths)];
    command := command + [ADD_MODULES_OPTION, Join(",", modules)];
    assert ModuleArgs(mps, o) == [MODULE_PATH_OPTION, Join(o.pathSeparator, paths)]
                                 + [ADD_MODULES_OPTION, Join(",", modules)];
    AppendAssoc(start, [MODULE_PATH_OPTION, Join(o.pathSeparator, paths)], [ADD_MODULES_OPTION, Join(",", modules)]);
  }

  /** `--launcher` only when the launcher is not blank. */
  method AppendLauncher(start: seq<string>, launcher: string) returns (command: seq<string>)
    ensures command == start + LauncherArgs(launcher)
  {
    command := start;
    if !IsBlank(launcher) { command := command + [LAUNCHER_OPTION, launcher]; }
  }

  // ---------------------------------------------------------------------
  // Reading a command line back: the argument layout is unambiguous.

  /** The settings a command line carries, as `jlink` sees them. */
  datatype CommandSummary = CommandSummary(
    jlink: string,
    switches: seq<bool>,
    compress: int,
    endian: Option<string>,
    modulePath: string,
    addModules: string,
    launcher: Option<string>,
    output: string)

  /** The settings of profile `p` under options `o`, read off the fields directly. */
  function Summary(p: Profile, o: Options): (s: CommandSummary)
    requires CanBuildCommand(p)
    ensures s.output == p.output.value && s.compress == p.compress
    ensures s.launcher.None? <==> IsBlank(p.launcher)
    ensures s.endian.None? <==> p.endian <= 0
  {
    var mps := p.modulePaths.value;
    CommandSummary(
      p.JlinkString(o),
      SwitchesOf(p, o),
      p.compress,
      if p.endian > 0 then Some(EndianName(p.endian)) else None,
      Join(o.pathSeparator, Directories(mps)),
      Join(",", Modules(mps)),
      if IsBlank(p.launcher) then None else Some(p.launcher),
      p.output.value)
  }

  /** Consumes `token` at the head of `t` if it is there. */
  function TakeFlag(token: string, t: seq<string>): (r: (bool, seq<string>))
    ensures r.0 ==> t == [token] + r.1
    ensures !r.0 ==> r.1 == t
  {
    if t != [] && t[0] == token then (true, t[1..]) else (false, t)
  }

  /** Reads the switches from position `k` on, each present or absent, in order. */
  function ParseSwitches(tokens: seq<string>, k: nat, t: seq<string>): (r: (seq<bool>, seq<string>))
    requires k <= |tokens|
    ensures |r.0| == |tokens| - k
    decreases |tokens| - k
  {
    if k == |tokens| then ([], t)
    else
      var head := TakeFlag(tokens[k], t);
      var rest := ParseSwitches(tokens, k + 1, head.1);
      ([head.0] + rest.0, rest.1)
  }

  /** Reads the optional byte-order argument. */
  function ParseEndian(t: seq<string>): (Option<string>, seq<string>) {
    if t != [] && StartsWith(t[0], ENDIAN_PREFIX) then (Some(RemoveStart(t[0], ENDIAN_PREFIX)), t[1..])
    else (None, t)
  }

  /** Reads the tail of a command line, from `--module-path` on. */
  function ParseTail(t: seq<string>): Option<(string, string, Option<string>, string)> {
    if |t| >= 6 && t[0] == MODULE_PATH_OPTION && t[2] == ADD_MODULES_OPTION then
      var rest := t[4..];
      if |rest| == 2 && rest[0] == OUTPUT_OPTION then Some((t[1], t[3], None, rest[1]))
      else if |rest| == 4 && rest[0] == LAUNCHER_OPTION && rest[2] == OUTPUT_OPTION then
        Some((t[1], t[3], Some(rest[1]), rest[3]))
      else None
    else None
  }

  /** Reads a command line in the layout `getCommand` uses; `None` for anything else. */
  function ParseCommand(t: seq<string>): Option<CommandSummary> {
    if t == [] then None
    else
      var flags := ParseSwitches(SWITCHES, 0, t[1..]);
      var t7 := flags.1;
      if t7 == [] || !StartsWith(t7[0], COMPRESS_PREFIX) then None
      else
        var endian := ParseEndian(t7[1..]);
        var tail := ParseTail(endian.1);
        if tail.None? then None
        else
          Some(CommandSummary(t[0], flags.0, ParseInt(RemoveStart(t7[0], COMPRESS_PREFIX)), endian.0,
                              tail.value.0, tail.value.1, tail.value.2, tail.value.3))
  }

  /** Appending the seven switches one at a time, as `getCommand` does, appends `SwitchArgs`. */
  lemma SwitchesAppended(start: seq<string>, p: Profile, o: Options)
    ensures start + Flag(o.jlinkDebug, DEBUG_FLAG) + Flag(o.jlinkVerbose, VERBOSE_FLAG)
            + Flag(p.bindServices, BIND_SERVICES_FLAG) + Flag(p.ignoreSigning, IGNORE_SIGNING_FLAG)
            + Flag(p.noHeaders, NO_HEADERS_FLAG) + Flag(p.noManPages, NO_MAN_PAGES_FLAG)
            + Flag(p.stripDebug, STRIP_DEBUG_FLAG)
            == start + SwitchArgs(SwitchesOf(p, o), SWITCHES, 0)
  {
    var on := SwitchesOf(p, o);
    var x1 := start + Flag(on[0], DEBUG_FLAG);
    var x2 := x1 + Flag(on[1], VERBOSE_FLAG);
    var x3 := x2 + Flag(on[2], BIND_SERVICES_FLAG);
    var x4 := x3 + Flag(on[3], IGNORE_SIGNING_FLAG);
    var x5 := x4 + Flag(on[4], NO_HEADERS_FLAG);
    var x6 := x5 + Flag(on[5], NO_MAN_PAGES_FLAG);
    assert SwitchArgs(on, SWITCHES, 7) == [];
    assert SwitchArgs(on, SWITCHES, 6) == Flag(on[6], STRIP_DEBUG_FLAG) + [];
    assert Flag(on[6], STRIP_DEBUG_FLAG) + [] == Flag(on[6], STRIP_DEBUG_FLAG);
    AppendAssoc(x5, Flag(on[5], NO_MAN_PAGES_FLAG), SwitchArgs(on, SWITCHES, 6));
    AppendAssoc(x4, Flag(on[4], NO_HEADERS_FLAG), SwitchArgs(on, SWITCHES, 5));
    AppendAssoc(x3, Flag(on[3], IGNORE_SIGNING_FLAG), SwitchArgs(on, SWITCHES, 4));
    AppendAssoc(x2, Flag(on[2], BIND_SERVICES_FLAG), SwitchArgs(on, SWITCHES, 3));
    AppendAssoc(x1, Flag(on[1], VERBOSE_FLAG), SwitchArgs(on, SWITCHES, 2));
    AppendAssoc(start, Flag(on[0], DEBUG_FLAG), SwitchArgs(on, SWITCHES, 1));
  }

  lemma AppendAssoc<T>(a: seq<T>, b: seq<T>, c: seq<T>)
    ensures (a + b) + c == a + (b + c)
  {
  }

  /** An optional flag is read back as set exactly when it was emitted,
      provided the next token is a different one. */
  lemma TakeFlagOf(on: bool, token: string, rest: seq<string>)
    requires rest != [] && rest[0] != token
    ensures TakeFlag(token, Flag(on, token) + rest) == (on, rest)
  {
    if on {
      assert ([token] + rest)[0] == token && ([token] + rest)[1..] == rest;
    } else {
      assert Flag(on, token) + rest == rest;
    }
  }

  /** Distinct switches are read back as emitted, provided the token after them is not a switch. */
  lemma {:induction false} ParseSwitchArgs(on: seq<bool>, tokens: seq<string>, k: nat, rest: seq<string>)
    requires |on| == |tokens| && k <= |tokens| && NoDuplicates(tokens)
    requires rest != [] && rest[0] !in tokens
    ensures ParseSwitches(tokens, k, SwitchArgs(on, tokens, k) + rest) == (on[k..], rest)
    decreases |tokens| - k
  {
    if k < |tokens| {
      var args := SwitchArgs(on, tokens, k + 1);
      var u := args + rest;
      AppendAssoc(Flag(on[k], tokens[k]), args, rest);
      assert u[0] != tokens[k] by {
        if args != [] {
          var j :| k + 1 <= j < |tokens| && args[0] == tokens[j];
        }
      }
      TakeFlagOf(on[k], tokens[k], u);
      ParseSwitchArgs(on, tokens, k + 1, rest);
      assert [on[k]] + on[k + 1..] == on[k..];
      assert ParseSwitches(tokens, k, Flag(on[k], tokens[k]) + u)
             == ([on[k]] + ParseSwitches(tokens, k + 1, u).0, ParseSwitches(tokens, k + 1, u).1);
    } else {
      assert SwitchArgs(on, tokens, k) + rest == rest;
      assert on[k..] == [];
    }
  }

  /** The switches differ from each other, and none of them starts like the compression token. */
  lemma SwitchesDistinct(c: string)
    requires StartsWith(c, COMPRESS_PREFIX)
    ensures NoDuplicates(SWITCHES) && c !in SWITCHES
  {
    assert c[..|COMPRESS_PREFIX|] == COMPRESS_PREFIX;
    assert c[2] == 'c';
    assert forall i :: 0 <= i < |SWITCHES| ==> SWITCHES[i][2] != 'c';
    assert forall i, j :: 0 <= i < j < |SWITCHES| ==> |SWITCHES[i]| != |SWITCHES[j]|;
  }

  /** The byte-order argument is read back; the module-path option that follows it is not mistaken for one. */
  lemma ParseEndianArgs(endian: int, rest: seq<string>)
    requires endian <= 2 && rest != [] && rest[0] == MODULE_PATH_OPTION
    ensures ParseEndian(EndianArgs(endian) + rest)
            == (if endian > 0 then Some(EndianName(endian)) else None, rest)
  {
    assert MODULE_PATH_OPTION[2] == 'm' && ENDIAN_PREFIX[2] == 'e';
    if endian > 0 {
      var e := ENDIAN_PREFIX + EndianName(endian);
      assert e[..|ENDIAN_PREFIX|] == ENDIAN_PREFIX;
      assert RemoveStart(e, ENDIAN_PREFIX) == EndianName(endian);
      assert ([e] + rest)[1..] == rest;
    } else {
      assert EndianArgs(endian) + rest == rest;
    }
  }

  /** `getCommand`'s output determines the profile's settings: reading it
      back gives the settings `Summary` takes from the fields. */
  lemma ParseCommandLine(p: Profile, o: Options)
    requires CanBuildCommand(p)
    ensures ParseCommand(CommandLine(p, o)) == Some(Summary(p, o))
  {
    var mps := p.modulePaths.value;
    var tail := ModuleArgs(mps, o) + LauncherArgs(p.launcher) + [OUTPUT_OPTION, p.output.value];
    var afterFlags := [CompressArg(p.compress)] + (EndianArgs(p.endian) + tail);
    CommandLayout(p, o);
    assert CompressArg(p.compress)[..|COMPRESS_PREFIX|] == COMPRESS_PREFIX;
    SwitchesDistinct(CompressArg(p.compress));
    ParseSwitchArgs(SwitchesOf(p, o), SWITCHES, 0, afterFlags);
    assert SwitchesOf(p, o)[0..] == SwitchesOf(p, o);
    assert RemoveStart(CompressArg(p.compress), COMPRESS_PREFIX) == IntToString(p.compress);
    ParseIntToString(p.compress);
    assert afterFlags[1..] == EndianArgs(p.endian) + tail;
    ParseEndianArgs(p.endian, tail);
    ParseTailOf(mps, o, p.launcher, p.output.value);
  }

  /** The command line regrouped as jlink, switches, and everything after the switches. */
  lemma CommandLayout(p: Profile, o: Options)
    requires CanBuildCommand(p)
    ensures var t := CommandLine(p, o);
            var tail := ModuleArgs(p.modulePaths.value, o) + LauncherArgs(p.launcher) + [OUTPUT_OPTION, p.output.value];
            t != [] && t[0] == p.JlinkString(o)
            && t[1..] == SwitchArgs(SwitchesOf(p, o), SWITCHES, 0)
                         + ([CompressArg(p.compress)] + (EndianArgs(p.endian) + tail))
  {
    var launcherPart := LauncherArgs(p.launcher);
    var m := ModuleArgs(p.modulePaths.value, o);
    var out := [OUTPUT_OPTION, p.output.value];
    var tail := m + launcherPart + out;
    var t := CommandLine(p, o);
    var j := [p.JlinkString(o)];
    var fa := SwitchArgs(SwitchesOf(p, o), SWITCHES, 0);
    var c := [CompressArg(p.compress)];
    var e := EndianArgs(p.endian);
    assert t == j + fa + c + e + m + launcherPart + out;
    AppendAssoc(j + fa + c + e + m, launcherPart, out);
    AppendAssoc(j + fa + c + e, m, launcherPart + out);
    AppendAssoc(m, launcherPart, out);
    AppendAssoc(j + fa + c, e, tail);
    AppendAssoc(j + fa, c, e + tail);
    AppendAssoc(j, fa, c + (e + tail));
    assert t == j + (fa + (c + (e + tail)));
  }

  /** The module arguments, the launcher and the output read back. */
  lemma ParseTailOf(mps: seq<ModulePath>, o: Options, launcher: string, output: string)
    ensures ParseTail(ModuleArgs(mps, o) + LauncherArgs(launcher) + [OUTPUT_OPTION, output])
            == Some((Join(o.pathSeparator, Directories(mps)), Join(",", Modules(mps)),
                     if IsBlank(launcher) then None else Some(launcher), output))
  {
    var tail := ModuleArgs(mps, o) + LauncherArgs(launcher) + [OUTPUT_OPTION, output];
    assert tail[4..] == LauncherArgs(launcher) + [OUTPUT_OPTION, output];
  }

  /** The command for the example profile "demo": default jlink, strip-debug
      on, compression 2, one module path with two modules. */
  lemma DemoCommand()
    ensures
      var mps := [ModulePath("/mods", ["java.base", "java.logging"])];
      var p := NewProfile("demo-id").(name := "demo", output := Some("/tmp/img"), modulePaths := Some(mps),
                                      compress := 2, stripDebug := true);
      var o := Options(false, false, "/usr/bin/jlink", ":");
      CommandLine(p, o)
        == ["/usr/bin/jlink", "--strip-debug", "--compress=2", "--module-path", "/mods",
            "--add-modules", "java.base,java.logging", "--output", "/tmp/img"]
  {
    var mps := [ModulePath("/mods", ["java.base", "java.logging"])];
    var p := NewProfile("demo-id").(name := "demo", output := Some("/tmp/img"), modulePaths := Some(mps),
                                    compress := 2, stripDebug := true);
    var o := Options(false, false, "/usr/bin/jlink", ":");
    assert p.JlinkString(o) == "/usr/bin/jlink";
    OnlyStripDebug(SwitchesOf(p, o));
    DemoModuleArgs(mps, o);
    assert CompressArg(p.compress) == "--compress=2" by {
      assert IntToString(2) == "2";
    }
    assert EndianArgs(p.endian) == [] && LauncherArgs(p.launcher) == [];
    assert CommandLine(p, o) == ["/usr/bin/jlink"] + [STRIP_DEBUG_FLAG] + ["--compress=2"] + []
                                + [MODULE_PATH_OPTION, "/mods", ADD_MODULES_OPTION, "java.base,java.logging"]
                                + [] + [OUTPUT_OPTION, "/tmp/img"];
  }

  /** With only the last switch on, the switches contribute `--strip-debug` alone. */
  lemma OnlyStripDebug(on: seq<bool>)
    requires on == [false, false, false, false, false, false, true]
    ensures SwitchArgs(on, SWITCHES, 0) == [STRIP_DEBUG_FLAG]
  {
    assert SwitchArgs(on, SWITCHES, 6) == [STRIP_DEBUG_FLAG];
    assert SwitchArgs(on, SWITCHES, 5) == SwitchArgs(on, SWITCHES, 6);
    assert SwitchArgs(on, SWITCHES, 4) == SwitchArgs(on, SWITCHES, 5);
    assert SwitchArgs(on, SWITCHES, 3) == SwitchArgs(on, SWITCHES, 4);
    assert SwitchArgs(on, SWITCHES, 2) == SwitchArgs(on, SWITCHES, 3);
    assert SwitchArgs(on, SWITCHES, 1) == SwitchArgs(on, SWITCHES, 2);
  }

  /** The module arguments of one module path with two modules. */
  lemma DemoModuleArgs(mps: seq<ModulePath>, o: Options)
    requires mps == [ModulePath("/mods", ["java.base", "java.logging"])] && o.pathSeparator == ":"
    ensures ModuleArgs(mps, o) == [MODULE_PATH_OPTION, "/mods", ADD_MODULES_OPTION, "java.base,java.logging"]
  {
    var names := mps[0].selectedModules;
    assert Modules(mps) == names by {
      assert mps[..0] == [];
    }
    DemoJoin(names);
    var dirs := Directories(mps);
    assert dirs == ["/mods"];
    assert Join(":", dirs) == "/mods";
  }

  lemma DemoJoin(names: seq<string>)
    requires names == ["java.base", "java.logging"]
    ensures Join(",", names) == "java.base,java.logging"
  {
    var rest := names[1..];
    assert rest == ["java.logging"];
    assert Join(",", rest) == "java.logging";
    assert Join(",", names) == "java.base" + "," + "java.logging";
  }

  // ---------------------------------------------------------------------
  // isValid

  const INVALID_JLINK := "Invalid jlink"
  const INVALID_OUTPUT := "Invalid output directory"
  const INVALID_MODULE_DIRECTORY := "Invalid module directory: "

  /** One message per module path whose directory fails the directory test, in list order. */
  function DirectoryMessages(mps: seq<ModulePath>, isDirectory: string -> bool): seq<string>
    decreases |mps|
  {
    if mps == [] then []
    else
      var last := mps[|mps| - 1];
      DirectoryMessages(mps[..|mps| - 1], isDirectory)
      + (if isDirectory(last.directory) then [] else [INVALID_MODULE_DIRECTORY + last.directory])
  }

  /** The module-directory messages name exactly the directories that fail the test. */
  lemma {:induction false} DirectoryMessagesNameFailures(mps: seq<ModulePath>, isDirectory: string -> bool)
    ensures forall m :: m in DirectoryMessages(mps, isDirectory) <==>
              exists i :: 0 <= i < |mps| && !isDirectory(mps[i].directory) && m == INVALID_MODULE_DIRECTORY + mps[i].directory
    decreases |mps|
  {
    if mps != [] {
      var init := mps[..|mps| - 1];
      DirectoryMessagesNameFailures(init, isDirectory);
      assert forall i :: 0 <= i < |init| ==> init[i] == mps[i];
    }
  }

  /** The messages of the jlink and output checks. */
  function CheckMessages(p: Profile, o: Options, isFile: string -> bool): seq<string> {
    (if isFile(p.JlinkString(o)) then [] else [INVALID_JLINK])
    + (if p.output.None? || IsBlank(p.output.value) then [INVALID_OUTPUT] else [])
  }

  /** The messages `isValid` collects, in the order it adds them. */
  function ValidationMessages(p: Profile, o: Options, isFile: string -> bool, isDirectory: string -> bool): seq<string>
    requires p.modulePaths.Some?
  {
    CheckMessages(p, o, isFile) + DirectoryMessages(p.modulePaths.value, isDirectory)
  }

  /** The text of a string builder to which each message was appended followed by a newline. */
  function Lines(ms: seq<string>): string
    decreases |ms|
  {
    if ms == [] then "" else Lines(ms[..|ms| - 1]) + ms[|ms| - 1] + "\n"
  }

  lemma {:induction false} LinesEmpty(ms: seq<string>)
    ensures Lines(ms) == "" <==> ms == []
  {
    if ms != [] {
      assert Lines(ms)[|Lines(ms)| - 1] == '\n';
    }
  }

  lemma LinesSnoc(ms: seq<string>, m: string)
    ensures Lines(ms + [m]) == Lines(ms) + m + "\n"
  {
    assert (ms + [m])[..|ms|] == ms;
  }

  /** The module-path loop of `isValid`: one message per failing directory
      appended to the text built so far. */
  method AddDirectoryErrors(text: string, ghost before: seq<string>, mps: seq<ModulePath>, isDirectory: string -> bool)
    returns (validationError: string)
    requires text == Lines(before)
    ensures validationError == Lines(before + DirectoryMessages(mps, isDirectory))
  {
    validationError := text;
    var i := 0;
    assert mps[..0] == [] && before + [] == before;
    while i < |mps|
      invariant 0 <= i <= |mps|
      invariant validationError == Lines(before + DirectoryMessages(mps[..i], isDirectory))
    {
      var directory := mps[i].directory;
      ghost var messages := DirectoryMessages(mps[..i], isDirectory);
      assert mps[..i + 1][..i] == mps[..i] && mps[..i + 1][i] == mps[i];
      if isDirectory(directory) {
        assert DirectoryMessages(mps[..i + 1], isDirectory) == messages + [];
        assert messages + [] == messages;
      } else {
        var m := INVALID_MODULE_DIRECTORY + directory;
        assert DirectoryMessages(mps[..i + 1], isDirectory) == messages + [m];
        validationError := AddValidationError(validationError, before + messages, m);
        AppendAssoc(before, messages, [m]);
      }
      i := i + 1;
    }
    assert mps[..|mps|] == mps;
  }

  /** `addValidationError`: appends the message and a newline. */
  method AddValidationError(text: string, ghost before: seq<string>, message: string) returns (r: string)
    requires text == Lines(before)
    ensures r == Lines(before + [message])
  {
    LinesSnoc(before, message);
    r := text + message + "\n";
  }

  /** The jlink and output checks of `isValid`, from an empty text. */
  method AddCheckErrors(p: Profile, o: Options, isFile: string -> bool) returns (validationError: string)
    ensures validationError == Lines(CheckMessages(p, o, isFile))
  {
    validationError := "";
    ghost var head: seq<string> := [];
    if !isFile(p.JlinkString(o)) {
      validationError := AddValidationError(validationError, head, INVALID_JLINK);
      head := head + [INVALID_JLINK];
    }
    if p.output.None? || IsBlank(p.output.value) {
      validationError := AddValidationError(validationError, head, INVALID_OUTPUT);
      head := head + [INVALID_OUTPUT];
    }
    assert head == CheckMessages(p, o, isFile);
  }

  /** `isValid`: rebuilds the message text from scratch, one
      `addValidationError` per failed check, and reports whether it is empty. */
  method IsValid(p: Profile, o: Options, isFile: string -> bool, isDirectory: string -> bool)
    returns (valid: bool, validationError: string)
    requires p.modulePaths.Some?
    ensures validationError == Lines(ValidationMessages(p, o, isFile, isDirectory))
    ensures valid <==> ValidationMessages(p, o, isFile, isDirectory) == []
  {
    validationError := AddCheckErrors(p, o, isFile);
    validationError := AddDirectoryErrors(validationError, CheckMessages(p, o, isFile), p.modulePaths.value, isDirectory);
    LinesEmpty(ValidationMessages(p, o, isFile, isDirectory));
    valid := |validationError| == 0;
  }

  /** No module-directory message exactly when every directory passes the test. */
  lemma DirectoryMessagesEmpty(mps: seq<ModulePath>, isDirectory: string -> bool)
    ensures DirectoryMessages(mps, isDirectory) == [] <==> forall i :: 0 <= i < |mps| ==> isDirectory(mps[i].directory)
  {
    var r := DirectoryMessages(mps, isDirectory);
    DirectoryMessagesNameFailures(mps, isDirectory);
    forall i | 0 <= i < |mps|
      ensures !isDirectory(mps[i].directory) ==> INVALID_MODULE_DIRECTORY + mps[i].directory in r
    {
    }
    if r != [] {
      assert r[0] in r;
    }
  }

  /** `isValid` holds exactly when jlink is a file, the output is set and
      not blank, and every module-path directory is a directory. */
  lemma ValidIff(p: Profile, o: Options, isFile: string -> bool, isDirectory: string -> bool)
    requires p.modulePaths.Some?
    ensures ValidationMessages(p, o, isFile, isDirectory) == [] <==>
              && isFile(p.JlinkString(o))
              && p.output.Some? && !IsBlank(p.output.value)
              && forall i :: 0 <= i < |p.modulePaths.value| ==> isDirectory(p.modulePaths.value[i].directory)
  {
    DirectoryMessagesEmpty(p.modulePaths.value, isDirectory);
  }
}
