/**
 The command line (`ParseArgs` of src/cli_args.cpp): option names, the values they take,
 and the options they leave, as a fold of settings over the arguments before "--".
 */
module CliArgs {
  import opened Text

  datatype Options = Options(
    compilerArgs: seq<string>, programArgs: seq<string>, environment: seq<string>, testDirectories: seq<string>,
    outputPath: string, outputDirectory: string, workingDirectory: string,
    timeout: int,  // milliseconds
    explicitOutputPath: bool, runProgram: bool, showProgramOutput: bool, showEvents: bool, strictTestExit: bool)

  const DEFAULT_OUTPUT := "runtime-analyzer.out"

  const DEFAULTS := Options([], [], [], [], DEFAULT_OUTPUT, "runtime-analyzer-artifacts", "", 60000,
                            false, true, false, false, false)

  /** Why the arguments are refused; `Message` gives the text. */
  datatype ArgError =
    | NoError | NeedsOutput(option: string) | NeedsRunArg | NeedsAssignment | NeedsCwd | NeedsTimeout | NeedsSeconds
    | NeedsTestDir | NeedsOutputDir | NeedsFormat | UnknownOption(option: string) | NoCompilerArgs

  function Message(error: ArgError): string {
    match error
    case NoError => ""
    case NeedsOutput(option) => option + " requires a value"
    case NeedsRunArg => "--run-arg requires a value"
    case NeedsAssignment => "--env requires NAME=VALUE"
    case NeedsCwd => "--cwd requires a path"
    case NeedsTimeout => "--timeout requires a number of seconds"
    case NeedsSeconds => "--timeout requires a non-negative number of seconds"
    case NeedsTestDir => "--test-dir requires a path"
    case NeedsOutputDir => "--output-dir requires a path"
    case NeedsFormat => "--format requires text or sarif"
    case UnknownOption(option) => "unknown analyzer option: " + option + " (compiler arguments go after --)"
    case NoCompilerArgs => "missing compiler arguments; use -- <compiler args>"
  }

  datatype ParseResult = ParseResult(
    ok: bool, help: bool, version: bool, options: Options, sarif: bool, error: ArgError)

  // ---- Names ----

  datatype Name =
    | Separator | HelpShort | HelpLong | VersionLong | OutputShort | OutputLong | RunArgLong | EnvLong | CwdLong
    | TimeoutLong | TestDirLong | OutputDirLong | StrictLong | NoRunLong | ShowOutputLong | ShowEventsLong | FormatLong

  const NAMES: seq<Name> := [
    Separator, HelpShort, HelpLong, VersionLong, OutputShort, OutputLong, RunArgLong, EnvLong, CwdLong,
    TimeoutLong, TestDirLong, OutputDirLong, StrictLong, NoRunLong, ShowOutputLong, ShowEventsLong, FormatLong]

  function Spelling(name: Name): string {
    match name
    case Separator => "--"
    case HelpShort => "-h"
    case HelpLong => "--help"
    case VersionLong => "--version"
    case OutputShort => "-o"
    case OutputLong => "--output"
    case RunArgLong => "--run-arg"
    case EnvLong => "--env"
    case CwdLong => "--cwd"
    case TimeoutLong => "--timeout"
    case TestDirLong => "--test-dir"
    case OutputDirLong => "--output-dir"
    case StrictLong => "--strict-test-exit"
    case NoRunLong => "--no-run"
    case ShowOutputLong => "--show-output"
    case ShowEventsLong => "--show-events"
    case FormatLong => "--format"
  }

  /** The length, the last byte and the third byte of a name tell it from every other. */
  function Mark(name: Name): (int, char, char) {
    match name
    case Separator => (2, '-', ' ')
    case HelpShort => (2, 'h', ' ')
    case HelpLong => (6, 'p', 'h')
    case VersionLong => (9, 'n', 'v')
    case OutputShort => (2, 'o', ' ')
    case OutputLong => (8, 't', 'o')
    case RunArgLong => (9, 'g', 'r')
    case EnvLong => (5, 'v', 'e')
    case CwdLong => (5, 'd', 'c')
    case TimeoutLong => (9, 't', 't')
    case TestDirLong => (10, 'r', 't')
    case OutputDirLong => (12, 'r', 'o')
    case StrictLong => (18, 't', 's')
    case NoRunLong => (8, 'n', 'n')
    case ShowOutputLong => (13, 't', 's')
    case ShowEventsLong => (13, 's', 's')
    case FormatLong => (8, 't', 'f')
  }

  lemma SpellingMark(name: Name)
    ensures var s, mark := Spelling(name), Mark(name);
      |s| == mark.0 && s[|s| - 1] == mark.1 && (|s| > 2 ==> s[2] == mark.2)
    ensures Lacks(Spelling(name), '=')
  {
  }

  lemma SpellingInjective(a: Name, b: Name)
    requires Spelling(a) == Spelling(b)
    ensures a == b
  {
    SpellingMark(a);
    SpellingMark(b);
  }

  /** How each option is spelled on the command line. */
  type Speller = Name -> string

  /** No two options are spelled alike, and none with an equals sign. */
  ghost predicate GoodSpeller(spell: Speller) {
    && (forall a, b :: spell(a) == spell(b) ==> a == b)
    && (forall a :: Lacks(spell(a), '='))
  }

  lemma SpellingIsGood()
    ensures GoodSpeller(Spelling)
  {
    forall a, b | Spelling(a) == Spelling(b) ensures a == b {
      SpellingInjective(a, b);
    }
    forall a ensures Lacks(Spelling(a), '=') {
      SpellingMark(a);
    }
  }

  function NameIn(spell: Speller, names: seq<Name>, arg: string): Option<Name> {
    if names == [] then None
    else if spell(names[0]) == arg then Some(names[0])
    else NameIn(spell, names[1..], arg)
  }

  /** The option an argument names exactly. */
  function NameOf(spell: Speller, arg: string): Option<Name> {
    NameIn(spell, NAMES, arg)
  }

  lemma {:induction false} NameInMeaning(spell: Speller, names: seq<Name>, name: Name)
    requires GoodSpeller(spell) && name in names
    ensures NameIn(spell, names, spell(name)) == Some(name)
  {
    if spell(names[0]) != spell(name) {
      NameInMeaning(spell, names[1..], name);
    }
  }

  lemma NameIsListed(name: Name)
    ensures name in NAMES
  {
    var k := match name
      case Separator => 0 case HelpShort => 1 case HelpLong => 2 case VersionLong => 3 case OutputShort => 4
      case OutputLong => 5 case RunArgLong => 6 case EnvLong => 7 case CwdLong => 8 case TimeoutLong => 9
      case TestDirLong => 10 case OutputDirLong => 11 case StrictLong => 12 case NoRunLong => 13
      case ShowOutputLong => 14 case ShowEventsLong => 15 case FormatLong => 16;
    assert NAMES[k] == name;
  }

  /** A spelled name is read as that name. */
  lemma NameOfSpelling(spell: Speller, name: Name)
    requires GoodSpeller(spell)
    ensures NameOf(spell, spell(name)) == Some(name)
  {
    NameIsListed(name);
    NameInMeaning(spell, NAMES, name);
  }

  /** An argument with an equals sign is no name. */
  lemma {:induction false} NoNameWithEquals(spell: Speller, names: seq<Name>, arg: string)
    requires GoodSpeller(spell) && !Lacks(arg, '=')
    ensures NameIn(spell, names, arg) == None
  {
    if names != [] {
      assert Lacks(spell(names[0]), '=');
      NoNameWithEquals(spell, names[1..], arg);
    }
  }

  // ---- Values ----

  const INT64_MAX: nat := 0x7FFF_FFFF_FFFF_FFFF

  predicate IsBlank(c: char) {
    c == ' ' || '\t' <= c <= '\r'
  }

  function SkipBlanks(s: string): (n: nat)
    ensures n <= |s|
  {
    if s == "" || !IsBlank(s[0]) then 0 else 1 + SkipBlanks(s[1..])
  }

  /** What `std::stoll` leaves in `consumed` and `seconds`; a throw leaves 0 and -1. */
  datatype Stoll = Stoll(consumed: nat, seconds: int)

  /** `std::stoll`: blanks, a sign, digits; anything after them is left unread. */
  function ReadSeconds(value: string): Stoll {
    var blanks := SkipBlanks(value);
    var signed := blanks < |value| && (value[blanks] == '-' || value[blanks] == '+');
    var start := if signed then blanks + 1 else blanks;
    var digits := value[start..][..DigitPrefix(value[start..])];
    var negative := signed && value[blanks] == '-';
    var magnitude: int := DecValue(digits);
    if digits == "" || magnitude > (if negative then INT64_MAX + 1 else INT64_MAX) then Stoll(0, -1)
    else Stoll(start + |digits|, if negative then -magnitude else magnitude)
  }

  /** `std::chrono::milliseconds` from seconds, in 64 bits. */
  function Milliseconds(seconds: int): int {
    (seconds * 1000 + INT64_MAX + 1) % (2 * (INT64_MAX + 1)) - (INT64_MAX + 1)
  }

  /** The conversion is exact for the timeouts that fit, and for no other accepted one. */
  lemma MillisecondsExact(seconds: nat)
    requires seconds <= INT64_MAX
    ensures Milliseconds(seconds) == seconds * 1000 <==> seconds <= INT64_MAX / 1000
  {
  }

  /** NAME=VALUE with a nonempty name. */
  predicate IsAssignment(s: string) {
    IndexOf(s, '=') != |s| && IndexOf(s, '=') != 0
  }

  // ---- Settings ----

  datatype Setting =
    | Output(path: string) | RunArg(value: string) | Env(value: string) | Cwd(path: string) | Timeout(seconds: int)
    | TestDir(path: string) | OutputDir(path: string) | Strict | NoRun | ShowOutput | ShowEvents | Format(sarif: bool)

  datatype Config = Config(options: Options, sarif: bool)

  const START := Config(DEFAULTS, false)

  /** What one option does. */
  function Apply(c: Config, s: Setting): Config {
    var o := c.options;
    match s
    case Output(path) => c.(options := o.(outputPath := path, explicitOutputPath := true))
    case RunArg(value) => c.(options := o.(programArgs := o.programArgs + [value]))
    case Env(value) => c.(options := o.(environment := o.environment + [value]))
    case Cwd(path) => c.(options := o.(workingDirectory := path))
    case Timeout(seconds) => c.(options := o.(timeout := Milliseconds(seconds)))
    case TestDir(path) => c.(options := o.(testDirectories := o.testDirectories + [path]))
    case OutputDir(path) => c.(options := o.(outputDirectory := path))
    case Strict => c.(options := o.(strictTestExit := true))
    case NoRun => c.(options := o.(runProgram := false))
    case ShowOutput => c.(options := o.(showProgramOutput := true))
    case ShowEvents => c.(options := o.(showEvents := true))
    case Format(sarif) => c.(sarif := sarif)
  }

  datatype Read = Stop | ShowHelp | ShowVersion | Set(setting: Setting, used: nat) | Bad(error: ArgError)

  function OutputReading(arg: string, value: Option<string>): Read {
    if value.None? then Bad(NeedsOutput(arg)) else Set(Output(value.value), 2)
  }

  function EnvReading(value: Option<string>): Read {
    if value.None? || !IsAssignment(value.value) then Bad(NeedsAssignment) else Set(Env(value.value), 2)
  }

  function TimeoutReading(value: Option<string>): Read {
    if value.None? then Bad(NeedsTimeout)
    else
      var read := ReadSeconds(value.value);
      if read.consumed != |value.value| || read.seconds < 0 then
        Bad(NeedsSeconds)
      else Set(Timeout(read.seconds), 2)
  }

  function FormatReading(value: string, used: nat): Read {
    if value == "text" then Set(Format(false), used)
    else if value == "sarif" then Set(Format(true), used)
    else Bad(NeedsFormat)
  }

  function NamedReading(name: Name, arg: string, value: Option<string>): Read {
    match name
    case Separator => Stop
    case HelpShort => ShowHelp
    case HelpLong => ShowHelp
    case VersionLong => ShowVersion
    case OutputShort => OutputReading(arg, value)
    case OutputLong => OutputReading(arg, value)
    case RunArgLong => if value.None? then Bad(NeedsRunArg) else Set(RunArg(value.value), 2)
    case EnvLong => EnvReading(value)
    case CwdLong => if value.None? then Bad(NeedsCwd) else Set(Cwd(value.value), 2)
    case TimeoutLong => TimeoutReading(value)
    case TestDirLong => if value.None? then Bad(NeedsTestDir) else Set(TestDir(value.value), 2)
    case OutputDirLong => if value.None? then Bad(NeedsOutputDir) else Set(OutputDir(value.value), 2)
    case StrictLong => Set(Strict, 1)
    case NoRunLong => Set(NoRun, 1)
    case ShowOutputLong => Set(ShowOutput, 1)
    case ShowEventsLong => Set(ShowEvents, 1)
    case FormatLong => FormatReading(if value.None? then "" else value.value, 2)
  }

  const OUTPUT_IS := "--output="
  const FORMAT_IS := "--format="

  /** An argument that is no name: an option with its value joined, or unknown. */
  function JoinedReading(arg: string): Read {
    if StartsWith(arg, OUTPUT_IS) then Set(Output(arg[|OUTPUT_IS|..]), 1)
    else if StartsWith(arg, FORMAT_IS) then FormatReading(arg[|FORMAT_IS|..], 1)
    else Bad(UnknownOption(arg))
  }

  /** The option at the head of the arguments, with how many arguments it takes. */
  function ReadOption(spell: Speller, args: seq<string>): (r: Read)
    requires args != []
    ensures r.Set? ==> 1 <= r.used <= |args|
  {
    var value := if |args| > 1 then Some(args[1]) else None;
    match NameOf(spell, args[0])
    case Some(name) => NamedReading(name, args[0], value)
    case None => JoinedReading(args[0])
  }

  /** The result once the options are over: without compiler arguments there must be a directory. */
  function Finish(c: Config, compilerArgs: seq<string>): ParseResult {
    var options := c.options.(compilerArgs := compilerArgs);
    if compilerArgs == [] && options.testDirectories == [] then
      ParseResult(false, false, false, options, c.sarif, NoCompilerArgs)
    else ParseResult(true, false, false, options, c.sarif, NoError)
  }

  /** The rest of the arguments, from a configuration read off those before. */
  function ParseFrom(spell: Speller, c: Config, args: seq<string>): ParseResult
    decreases |args|
  {
    if args == [] then Finish(c, [])
    else
      match ReadOption(spell, args)
      case Stop => Finish(c, args[1..])
      case ShowHelp => ParseResult(true, true, false, c.options, c.sarif, NoError)
      case ShowVersion => ParseResult(true, false, true, c.options, c.sarif, NoError)
      case Set(setting, used) => ParseFrom(spell, Apply(c, setting), args[used..])
      case Bad(error) => ParseResult(false, false, false, c.options, c.sarif, error)
  }

  /** What the loop's state stands for: options still to read, or compiler arguments to forward. */
  function Pending(spell: Speller, c: Config, forwarding: bool, rest: seq<string>): ParseResult {
    if forwarding then Finish(c, c.options.compilerArgs + rest) else ParseFrom(spell, c, rest)
  }

  /** One compiler argument is forwarded. */
  lemma PendingForwarded(spell: Speller, c: Config, rest: seq<string>)
    requires rest != []
    ensures Pending(spell, c, true, rest)
      == Pending(spell, c.(options := c.options.(compilerArgs := c.options.compilerArgs + [rest[0]])), true, rest[1..])
  {
    assert rest == [rest[0]] + rest[1..];
    Assoc(c.options.compilerArgs, [rest[0]], rest[1..]);
  }

  /** At the end, what was collected is the result. */
  lemma PendingEnd(spell: Speller, c: Config, forwarding: bool)
    requires !forwarding ==> c.options.compilerArgs == []
    ensures Pending(spell, c, forwarding, [])
      == if c.options.compilerArgs == [] && c.options.testDirectories == [] then
        ParseResult(false, false, false, c.options, c.sarif, NoCompilerArgs)
      else ParseResult(true, false, false, c.options, c.sarif, NoError)
  {
    assert c.options.compilerArgs + [] == c.options.compilerArgs;
  }

  /** An option leaves the compiler arguments alone. */
  lemma ApplyKeepsCompilerArgs(c: Config, s: Setting)
    ensures Apply(c, s).options.compilerArgs == c.options.compilerArgs
  {
    match s
    case Output(_) | Cwd(_) | OutputDir(_) =>
    case RunArg(_) | Env(_) | TestDir(_) =>
    case Timeout(_) | Format(_) =>
    case Strict | NoRun | ShowOutput | ShowEvents =>
  }

  /** The loop over `argv`, whose first entry is the program. */
  method ParseArgs(spell: Speller, argv: seq<string>) returns (result: ParseResult)
    ensures result == ParseFrom(spell, START, if argv == [] then [] else argv[1..])
  {
    var c, i, forwarding := START, 1, false;
    ghost var rest := if argv == [] then [] else argv[1..];
    ghost var expected := ParseFrom(spell, START, rest);
    while i < |argv|
      invariant 1 <= i && (i <= |argv| ==> rest == argv[i..]) && (i >= |argv| ==> rest == [])
      invariant Pending(spell, c, forwarding, rest) == expected
      invariant !forwarding ==> c.options.compilerArgs == []
      decreases |argv| - i
    {
      if forwarding {
        PendingForwarded(spell, c, rest);
        c := c.(options := c.options.(compilerArgs := c.options.compilerArgs + [argv[i]]));
        i, rest := i + 1, rest[1..];
        continue;
      }
      var read := ReadOption(spell, argv[i..]);
      match read
      case Stop =>
        forwarding, i, rest := true, i + 1, rest[1..];
        assert c.options.compilerArgs + rest == rest;
      case ShowHelp => return ParseResult(true, true, false, c.options, c.sarif, NoError);
      case ShowVersion => return ParseResult(true, false, true, c.options, c.sarif, NoError);
      case Bad(error) => return ParseResult(false, false, false, c.options, c.sarif, error);
      case Set(setting, used) =>
        ApplyKeepsCompilerArgs(c, setting);
        c, i, rest := Apply(c, setting), i + used, rest[used..];
    }
    PendingEnd(spell, c, forwarding);
    if (!forwarding || c.options.compilerArgs == []) && c.options.testDirectories == [] {
      return ParseResult(false, false, false, c.options, c.sarif, NoCompilerArgs);
    }
    return ParseResult(true, false, false, c.options, c.sarif, NoError);
  }

  // ---- Printing settings ----

  /** A setting with the spelling it is given on the command line. */
  datatype Spelled = Spelled(setting: Setting, short: bool, joined: bool)

  predicate ValidSetting(s: Setting) {
    && (s.Env? ==> IsAssignment(s.value))
    && (s.Timeout? ==> 0 <= s.seconds <= INT64_MAX)
  }

  function FormatName(sarif: bool): string {
    if sarif then "sarif" else "text"
  }

  /** The arguments of a setting. */
  function Render(spell: Speller, s: Spelled): seq<string>
    requires ValidSetting(s.setting)
  {
    match s.setting
    case Output(path) =>
      if s.joined then [OUTPUT_IS + path] else [spell(if s.short then OutputShort else OutputLong), path]
    case RunArg(value) => [spell(RunArgLong), value]
    case Env(value) => [spell(EnvLong), value]
    case Cwd(path) => [spell(CwdLong), path]
    case Timeout(seconds) => [spell(TimeoutLong), Dec(seconds)]
    case TestDir(path) => [spell(TestDirLong), path]
    case OutputDir(path) => [spell(OutputDirLong), path]
    case Strict => [spell(StrictLong)]
    case NoRun => [spell(NoRunLong)]
    case ShowOutput => [spell(ShowOutputLong)]
    case ShowEvents => [spell(ShowEventsLong)]
    case Format(sarif) =>
      if s.joined then [FORMAT_IS + FormatName(sarif)] else [spell(FormatLong), FormatName(sarif)]
  }

  predicate AllValid(settings: seq<Spelled>) {
    forall k :: 0 <= k < |settings| ==> ValidSetting(settings[k].setting)
  }

  function RenderAll(spell: Speller, settings: seq<Spelled>): seq<string>
    requires AllValid(settings)
  {
    if settings == [] then [] else Render(spell, settings[0]) + RenderAll(spell, settings[1..])
  }

  function ApplyAll(c: Config, settings: seq<Spelled>): Config
    decreases |settings|
  {
    if settings == [] then c else ApplyAll(Apply(c, settings[0].setting), settings[1..])
  }

  /** A decimal number of seconds is read whole. */
  lemma SecondsOfDec(seconds: nat)
    requires seconds <= INT64_MAX
    ensures ReadSeconds(Dec(seconds)) == Stoll(|Dec(seconds)|, seconds)
  {
    var value := Dec(seconds);
    DecRoundTrip(seconds);
    assert !IsBlank(value[0]) && value[0] != '-' && value[0] != '+';
    assert SkipBlanks(value) == 0;
    assert value[0..] == value;
    DigitPrefixWhole(value);
    assert value[..|value|] == value;
  }

  /** An argument with a joined value is read as that option. */
  lemma ReadOutputJoined(spell: Speller, path: string, rest: seq<string>)
    requires GoodSpeller(spell)
    ensures ReadOption(spell, [OUTPUT_IS + path] + rest) == Set(Output(path), 1)
  {
    var arg := OUTPUT_IS + path;
    assert OUTPUT_IS[8] == '=' && arg[8] == '=';
    NoNameWithEquals(spell, NAMES, arg);
    assert StartsWith(arg, OUTPUT_IS);
    assert arg[|OUTPUT_IS|..] == path;
  }

  lemma ReadFormatJoined(spell: Speller, sarif: bool, rest: seq<string>)
    requires GoodSpeller(spell)
    ensures ReadOption(spell, [FORMAT_IS + FormatName(sarif)] + rest) == Set(Format(sarif), 1)
  {
    var arg := FORMAT_IS + FormatName(sarif);
    assert FORMAT_IS[8] == '=' && arg[8] == '=';
    NoNameWithEquals(spell, NAMES, arg);
    assert StartsWith(arg, FORMAT_IS);
    Mismatch(arg, OUTPUT_IS, 0, 2);
    assert arg[|FORMAT_IS|..] == FormatName(sarif);
    FormatNameReads(sarif, 1);
  }

  lemma FormatNameReads(sarif: bool, used: nat)
    ensures FormatReading(FormatName(sarif), used) == Set(Format(sarif), used)
  {
    assert "text"[0] != "sarif"[0];
  }

  /** An option with its value in the next argument. */
  lemma ReadNamed(spell: Speller, name: Name, rest: seq<string>)
    requires GoodSpeller(spell)
    ensures ReadOption(spell, [spell(name)] + rest)
      == NamedReading(name, spell(name), if rest == [] then None else Some(rest[0]))
  {
    NameOfSpelling(spell, name);
    var args := [spell(name)] + rest;
    if rest != [] {
      assert args[1] == rest[0];
    }
  }

  /** A flag is read back. */
  lemma ReadFlag(spell: Speller, s: Spelled, rest: seq<string>)
    requires GoodSpeller(spell)
    requires s.setting.Strict? || s.setting.NoRun? || s.setting.ShowOutput? || s.setting.ShowEvents?
    ensures ReadOption(spell, Render(spell, s) + rest) == Set(s.setting, 1)
  {
    var name := match s.setting
      case Strict => StrictLong case NoRun => NoRunLong case ShowOutput => ShowOutputLong case _ => ShowEventsLong;
    ReadNamed(spell, name, rest);
  }

  predicate TakesPath(s: Setting) {
    s.RunArg? || s.Cwd? || s.TestDir? || s.OutputDir?
  }

  function PathName(s: Setting): Name
    requires TakesPath(s)
  {
    match s
    case RunArg(_) => RunArgLong case Cwd(_) => CwdLong case TestDir(_) => TestDirLong case _ => OutputDirLong
  }

  function PathOf(s: Setting): string
    requires TakesPath(s)
  {
    match s
    case RunArg(value) => value case Cwd(path) => path case TestDir(path) => path case OutputDir(path) => path
  }

  lemma PathRendered(spell: Speller, s: Spelled)
    requires TakesPath(s.setting)
    ensures Render(spell, s) == [spell(PathName(s.setting)), PathOf(s.setting)]
  {
  }

  lemma PathReading(s: Setting, option: string)
    requires TakesPath(s)
    ensures NamedReading(PathName(s), option, Some(PathOf(s))) == Set(s, 2)
  {
  }

  /** A path option is read back. */
  lemma ReadPath(spell: Speller, s: Spelled, rest: seq<string>)
    requires GoodSpeller(spell) && TakesPath(s.setting)
    ensures ReadOption(spell, Render(spell, s) + rest) == Set(s.setting, 2)
  {
    var name := PathName(s.setting);
    PathRendered(spell, s);
    PathReading(s.setting, spell(name));
    ReadTwo(spell, name, PathOf(s.setting), rest);
  }

  lemma ReadTwo(spell: Speller, name: Name, value: string, rest: seq<string>)
    requires GoodSpeller(spell)
    ensures ReadOption(spell, [spell(name), value] + rest) == NamedReading(name, spell(name), Some(value))
  {
    assert [spell(name), value] + rest == [spell(name)] + ([value] + rest);
    ReadNamed(spell, name, [value] + rest);
  }

  /** An output is read back in each of its spellings. */
  lemma ReadOutput(spell: Speller, s: Spelled, rest: seq<string>)
    requires GoodSpeller(spell) && s.setting.Output?
    ensures ReadOption(spell, Render(spell, s) + rest) == Set(s.setting, |Render(spell, s)|)
  {
    if s.joined {
      ReadOutputJoined(spell, s.setting.path, rest);
    } else {
      ReadTwo(spell, if s.short then OutputShort else OutputLong, s.setting.path, rest);
    }
  }

  /** A format is read back in each of its spellings. */
  lemma ReadFormat(spell: Speller, s: Spelled, rest: seq<string>)
    requires GoodSpeller(spell) && s.setting.Format?
    ensures ReadOption(spell, Render(spell, s) + rest) == Set(s.setting, |Render(spell, s)|)
  {
    var name := FormatName(s.setting.sarif);
    if s.joined {
      assert Render(spell, s) == [FORMAT_IS + name];
      ReadFormatJoined(spell, s.setting.sarif, rest);
    } else {
      assert Render(spell, s) == [spell(FormatLong), name];
      ReadFormatApart(spell, s.setting.sarif, rest);
    }
  }

  lemma ReadFormatApart(spell: Speller, sarif: bool, rest: seq<string>)
    requires GoodSpeller(spell)
    ensures ReadOption(spell, [spell(FormatLong), FormatName(sarif)] + rest) == Set(Format(sarif), 2)
  {
    FormatNameReads(sarif, 2);
    ReadTwo(spell, FormatLong, FormatName(sarif), rest);
  }

  lemma TimeoutReads(seconds: nat)
    requires seconds <= INT64_MAX
    ensures TimeoutReading(Some(Dec(seconds))) == Set(Timeout(seconds), 2)
  {
    SecondsOfDec(seconds);
  }

  /** A timeout that is valid is read back. */
  lemma ReadTimeout(spell: Speller, seconds: nat, rest: seq<string>)
    requires GoodSpeller(spell) && seconds <= INT64_MAX
    ensures ReadOption(spell, [spell(TimeoutLong), Dec(seconds)] + rest) == Set(Timeout(seconds), 2)
  {
    TimeoutReads(seconds);
    ReadTwo(spell, TimeoutLong, Dec(seconds), rest);
  }

  /** An assignment or a timeout that is valid is read back. */
  lemma ReadChecked(spell: Speller, s: Spelled, rest: seq<string>)
    requires GoodSpeller(spell)
    requires ValidSetting(s.setting) && (s.setting.Env? || s.setting.Timeout?)
    ensures ReadOption(spell, Render(spell, s) + rest) == Set(s.setting, 2)
  {
    if s.setting.Env? {
      ReadTwo(spell, EnvLong, s.setting.value, rest);
    } else {
      ReadTimeout(spell, s.setting.seconds, rest);
    }
  }

  /** A printed setting is read back, with exactly its arguments. */
  lemma ReadRendered(spell: Speller, s: Spelled, rest: seq<string>)
    requires GoodSpeller(spell)
    requires ValidSetting(s.setting)
    ensures ReadOption(spell, Render(spell, s) + rest) == Set(s.setting, |Render(spell, s)|)
  {
    if s.setting.Output? {
      ReadOutput(spell, s, rest);
    } else if s.setting.Format? {
      ReadFormat(spell, s, rest);
    } else if s.setting.Env? || s.setting.Timeout? {
      ReadChecked(spell, s, rest);
    } else if TakesPath(s.setting) {
      ReadPath(spell, s, rest);
    } else {
      ReadFlag(spell, s, rest);
    }
  }

  /** Printed settings are applied in order, and the arguments after them read from there. */
  lemma {:induction false} ParseRendered(spell: Speller, c: Config, settings: seq<Spelled>, rest: seq<string>)
    requires GoodSpeller(spell)
    requires AllValid(settings)
    ensures ParseFrom(spell, c, RenderAll(spell, settings) + rest) == ParseFrom(spell, ApplyAll(c, settings), rest)
    decreases |settings|
  {
    if settings == [] {
      assert RenderAll(spell, settings) + rest == rest;
    } else {
      var head, tail := Render(spell, settings[0]), RenderAll(spell, settings[1..]) + rest;
      ReadRendered(spell, settings[0], tail);
      Assoc(head, RenderAll(spell, settings[1..]), rest);
      assert RenderAll(spell, settings) + rest == head + tail;
      assert (head + tail)[|head|..] == tail;
      ParseRendered(spell, Apply(c, settings[0].setting), settings[1..], rest);
    }
  }

  lemma MessageSays(error: ArgError)
    ensures Message(error) == "" <==> error == NoError
  {
    match error
    case NeedsOutput(option) => assert |Message(error)| >= |" requires a value"|;
    case UnknownOption(option) => assert |Message(error)| >= |"unknown analyzer option: "|;
    case _ =>
  }

  lemma BadSaysWhy(spell: Speller, args: seq<string>)
    requires args != [] && ReadOption(spell, args).Bad?
    ensures ReadOption(spell, args).error != NoError
  {
  }

  /** Arguments are refused exactly when there is a message that says why. */
  lemma {:induction false} RefusalsSayWhy(spell: Speller, c: Config, args: seq<string>)
    ensures var result := ParseFrom(spell, c, args); result.ok <==> Message(result.error) == ""
    decreases |args|
  {
    if args != [] {
      match ReadOption(spell, args)
      case Set(setting, used) => RefusalsSayWhy(spell, Apply(c, setting), args[used..]);
      case Bad(error) => BadSaysWhy(spell, args);
      case _ =>
    }
    MessageSays(ParseFrom(spell, c, args).error);
  }

  /** Arguments that are options to their end, and the configuration they give. */
  function ReadOptions(spell: Speller, c: Config, args: seq<string>): Option<Config>
    decreases |args|
  {
    if args == [] then Some(c)
    else
      match ReadOption(spell, args)
      case Set(setting, used) => ReadOptions(spell, Apply(c, setting), args[used..])
      case _ => None
  }

  /** An option that is accepted reads the same with further arguments behind it. */
  lemma ReadMore(spell: Speller, args: seq<string>, more: seq<string>)
    requires args != [] && ReadOption(spell, args).Set?
    ensures ReadOption(spell, args + more) == ReadOption(spell, args)
  {
    if |args| > 1 {
      assert (args + more)[1] == args[1];
    } else {
      var value := if more != [] then Some((args + more)[1]) else None;
      match NameOf(spell, args[0])
      case Some(name) => AloneReads(name, args[0], value);
      case None =>
    }
  }

  /** An option that is accepted as the last argument needs no value. */
  lemma AloneReads(name: Name, arg: string, value: Option<string>)
    requires NamedReading(name, arg, None).Set?
    ensures NamedReading(name, arg, value) == NamedReading(name, arg, None)
  {
    assert |"text"| == 4 && |"sarif"| == 5;
  }

  /** Everything after the first "--" in option position is forwarded as it is, whatever
      accepted options are before it, even if it reads like an option or another "--". */
  lemma {:induction false} ForwardsVerbatim(spell: Speller, c: Config, args: seq<string>, compilerArgs: seq<string>)
    requires GoodSpeller(spell) && ReadOptions(spell, c, args).Some?
    ensures ParseFrom(spell, c, args + ([spell(Separator)] + compilerArgs))
      == Finish(ReadOptions(spell, c, args).value, compilerArgs)
    decreases |args|
  {
    var tail := [spell(Separator)] + compilerArgs;
    if args == [] {
      assert args + tail == tail;
      ReadNamed(spell, Separator, compilerArgs);
      assert tail[1..] == compilerArgs;
    } else {
      var read := ReadOption(spell, args);
      ReadMore(spell, args, tail);
      assert (args + tail)[read.used..] == args[read.used..] + tail;
      ForwardsVerbatim(spell, Apply(c, read.setting), args[read.used..], compilerArgs);
    }
  }

  /** More is accepted than is ever printed: a sign, for one. */
  lemma SignedTimeoutAccepted(spell: Speller, c: Config)
    requires GoodSpeller(spell)
    ensures ReadOptions(spell, c, [spell(TimeoutLong), "+5"]) == Some(Apply(c, Timeout(5)))
  {
    var args := [spell(TimeoutLong), "+5"];
    assert args == [spell(TimeoutLong)] + ["+5"];
    ReadNamed(spell, TimeoutLong, ["+5"]);
    FiveSeconds();
    assert args[2..] == [];
  }

  lemma FiveSeconds()
    ensures ReadSeconds("+5") == Stoll(2, 5)
  {
    var value := "+5";
    assert value[1..] == "5" && "5"[1..] == "";
    assert DigitPrefix("") == 0 && DigitPrefix("5") == 1;
    assert "5"[..1] == "5" && "5"[..0] == "";
    assert DecValue("5") == 5;
  }

  /** Every timeout of 64 bits is accepted. */
  lemma TimeoutAccepted(spell: Speller, c: Config, seconds: nat)
    requires GoodSpeller(spell) && seconds <= INT64_MAX
    ensures ReadOptions(spell, c, [spell(TimeoutLong), Dec(seconds)])
      == Some(c.(options := c.options.(timeout := Milliseconds(seconds))))
  {
    var args := [spell(TimeoutLong), Dec(seconds)];
    assert args == [spell(TimeoutLong), Dec(seconds)] + [];
    ReadTimeout(spell, seconds, []);
    assert args[2..] == [];
  }

  /** One that is too long for its milliseconds is then no deadline at all. */
  lemma OverlongTimeoutAccepted(spell: Speller, c: Config)
    requires GoodSpeller(spell)
    ensures ReadOptions(spell, c, [spell(TimeoutLong), Dec(9223372036854776)])
      == Some(c.(options := c.options.(timeout := -9223372036854775616)))
  {
    var seconds := 9223372036854776;
    OverlongMilliseconds(seconds);
    TimeoutAccepted(spell, c, seconds);
  }

  lemma OverlongMilliseconds(seconds: nat)
    requires seconds == 9223372036854776
    ensures seconds <= INT64_MAX && Milliseconds(seconds) == -9223372036854775616
  {
  }

  /** Printed settings are accepted. */
  lemma {:induction false} ReadsRendered(spell: Speller, c: Config, settings: seq<Spelled>)
    requires GoodSpeller(spell) && AllValid(settings)
    ensures ReadOptions(spell, c, RenderAll(spell, settings)) == Some(ApplyAll(c, settings))
    decreases |settings|
  {
    if settings != [] {
      var head, tail := Render(spell, settings[0]), RenderAll(spell, settings[1..]);
      ReadRendered(spell, settings[0], tail);
      assert (head + tail)[|head|..] == tail;
      ReadsRendered(spell, Apply(c, settings[0].setting), settings[1..]);
    }
  }

  // ---- Order of settings ----

  /** Which part of the configuration a setting is about. */
  function Kind(s: Setting): nat {
    match s
    case Output(_) => 0 case RunArg(_) => 1 case Env(_) => 2 case Cwd(_) => 3 case Timeout(_) => 4
    case TestDir(_) => 5 case OutputDir(_) => 6 case Strict => 7 case NoRun => 8 case ShowOutput => 9
    case ShowEvents => 10 case Format(_) => 11
  }

  predicate Repeatable(s: Setting) {
    s.RunArg? || s.Env? || s.TestDir?
  }

  predicate Ordered(c: Config, a: Setting, b: Setting) {
    && (Kind(a) != Kind(b) ==> Apply(Apply(c, a), b) == Apply(Apply(c, b), a))
    && (Kind(a) == Kind(b) && !Repeatable(a) ==> Apply(Apply(c, a), b) == Apply(c, b))
  }

  lemma PathsOrdered(c: Config, a: Setting, b: Setting)
    requires a.Output? || a.Cwd? || a.OutputDir?
    ensures Ordered(c, a, b)
  {
  }

  lemma ListsOrdered(c: Config, a: Setting, b: Setting)
    requires a.RunArg? || a.Env? || a.TestDir?
    ensures Ordered(c, a, b)
  {
  }

  lemma NumbersOrdered(c: Config, a: Setting, b: Setting)
    requires a.Timeout? || a.Format? || a.Strict?
    ensures Ordered(c, a, b)
  {
  }

  lemma FlagsOrdered(c: Config, a: Setting, b: Setting)
    requires a.NoRun? || a.ShowOutput? || a.ShowEvents?
    ensures Ordered(c, a, b)
  {
  }

  /** Settings of different kinds commute; of one kind, the last one wins unless it repeats. */
  lemma ApplyOrder(c: Config, a: Setting, b: Setting)
    ensures Kind(a) != Kind(b) ==> Apply(Apply(c, a), b) == Apply(Apply(c, b), a)
    ensures Kind(a) == Kind(b) && !Repeatable(a) ==> Apply(Apply(c, a), b) == Apply(c, b)
  {
    if a.Output? || a.Cwd? || a.OutputDir? {
      PathsOrdered(c, a, b);
    } else if Repeatable(a) {
      ListsOrdered(c, a, b);
    } else if a.Timeout? || a.Format? || a.Strict? {
      NumbersOrdered(c, a, b);
    } else {
      FlagsOrdered(c, a, b);
    }
  }

  /** Options that do the same in the middle of a command line can replace each other. */
  lemma ReplaceMiddle(spell: Speller, before: seq<Spelled>, a: seq<Spelled>, b: seq<Spelled>, after: seq<Spelled>,
                      rest: seq<string>)
    requires GoodSpeller(spell)
    requires AllValid(before + a + after) && AllValid(before + b + after)
    requires ApplyAll(ApplyAll(START, before), a) == ApplyAll(ApplyAll(START, before), b)
    ensures ParseFrom(spell, START, RenderAll(spell, before + a + after) + rest)
      == ParseFrom(spell, START, RenderAll(spell, before + b + after) + rest)
  {
    ParseRendered(spell, START, before + a + after, rest);
    ParseRendered(spell, START, before + b + after, rest);
    ApplyAllConcat(START, before + a, after);
    ApplyAllConcat(START, before + b, after);
    ApplyAllConcat(START, before, a);
    ApplyAllConcat(START, before, b);
  }

  /** Swapping neighbouring options of different kinds on the command line changes nothing. */
  lemma SwapOptions(spell: Speller, before: seq<Spelled>, a: Spelled, b: Spelled, after: seq<Spelled>,
                    rest: seq<string>)
    requires GoodSpeller(spell)
    requires AllValid(before + [a, b] + after) && AllValid(before + [b, a] + after)
    requires Kind(a.setting) != Kind(b.setting)
    ensures ParseFrom(spell, START, RenderAll(spell, before + [a, b] + after) + rest)
      == ParseFrom(spell, START, RenderAll(spell, before + [b, a] + after) + rest)
  {
    var c := ApplyAll(START, before);
    ApplyOrder(c, a.setting, b.setting);
    ApplyTwo(c, a, b);
    ApplyTwo(c, b, a);
    ReplaceMiddle(spell, before, [a, b], [b, a], after, rest);
  }

  /** What a scalar setting leaves is undone by a later one of its kind, whatever is between. */
  lemma {:induction false} LaterReplaces(c: Config, a: Setting, middle: seq<Spelled>, b: Spelled)
    requires Kind(a) == Kind(b.setting) && !Repeatable(a)
    ensures ApplyAll(Apply(c, a), middle + [b]) == ApplyAll(c, middle + [b])
    decreases |middle|
  {
    if middle == [] {
      ApplyOrder(c, a, b.setting);
      assert middle + [b] == [b] && [b][1..] == [];
    } else {
      var next := middle[0].setting;
      assert (middle + [b])[0] == middle[0] && (middle + [b])[1..] == middle[1..] + [b];
      ApplyOrder(c, a, next);
      if Kind(next) != Kind(a) {
        LaterReplaces(Apply(c, next), a, middle[1..], b);
      }
    }
  }

  lemma ApplyTwo(c: Config, a: Spelled, b: Spelled)
    ensures ApplyAll(c, [a, b]) == Apply(Apply(c, a.setting), b.setting)
    ensures ApplyAll(c, [b]) == Apply(c, b.setting)
  {
    assert [a, b][1..] == [b] && [b][1..] == [];
    assert ApplyAll(Apply(c, a.setting), [b]) == Apply(Apply(c, a.setting), b.setting);
  }

  lemma {:induction false} ApplyAllConcat(c: Config, a: seq<Spelled>, b: seq<Spelled>)
    ensures ApplyAll(c, a + b) == ApplyAll(ApplyAll(c, a), b)
    decreases |a|
  {
    if a == [] {
      assert a + b == b;
    } else {
      assert (a + b)[1..] == a[1..] + b;
      ApplyAllConcat(Apply(c, a[0].setting), a[1..], b);
    }
  }

  /** A scalar option given again, anywhere later, replaces its earlier value: only the last counts. */
  lemma LastWins(spell: Speller, before: seq<Spelled>, a: Spelled, middle: seq<Spelled>, b: Spelled,
                 after: seq<Spelled>, rest: seq<string>)
    requires GoodSpeller(spell)
    requires AllValid(before + ([a] + middle + [b]) + after) && AllValid(before + (middle + [b]) + after)
    requires Kind(a.setting) == Kind(b.setting) && !Repeatable(a.setting)
    ensures ParseFrom(spell, START, RenderAll(spell, before + ([a] + middle + [b]) + after) + rest)
      == ParseFrom(spell, START, RenderAll(spell, before + (middle + [b]) + after) + rest)
  {
    var c := ApplyAll(START, before);
    Assoc([a], middle, [b]);
    ApplyNext(c, a, middle + [b]);
    LaterReplaces(c, a.setting, middle, b);
    ReplaceMiddle(spell, before, [a] + middle + [b], middle + [b], after, rest);
  }

  // ---- Repeated options ----

  function RunArgsIn(settings: seq<Spelled>): seq<string> {
    if settings == [] then []
    else (if settings[0].setting.RunArg? then [settings[0].setting.value] else []) + RunArgsIn(settings[1..])
  }

  function EnvsIn(settings: seq<Spelled>): seq<string> {
    if settings == [] then []
    else (if settings[0].setting.Env? then [settings[0].setting.value] else []) + EnvsIn(settings[1..])
  }

  function TestDirsIn(settings: seq<Spelled>): seq<string> {
    if settings == [] then []
    else (if settings[0].setting.TestDir? then [settings[0].setting.path] else []) + TestDirsIn(settings[1..])
  }

  lemma {:induction false} RunArgsKeepOrder(c: Config, settings: seq<Spelled>)
    ensures ApplyAll(c, settings).options.programArgs == c.options.programArgs + RunArgsIn(settings)
    decreases |settings|
  {
    if settings == [] {
      assert c.options.programArgs + [] == c.options.programArgs;
    } else {
      var head := settings[0].setting;
      RunArgsKeepOrder(Apply(c, head), settings[1..]);
      KeptByOne(c, settings[0]);
      Assoc(c.options.programArgs, if head.RunArg? then [head.value] else [], RunArgsIn(settings[1..]));
    }
  }

  lemma {:induction false} EnvsKeepOrder(c: Config, settings: seq<Spelled>)
    ensures ApplyAll(c, settings).options.environment == c.options.environment + EnvsIn(settings)
    decreases |settings|
  {
    if settings == [] {
      assert c.options.environment + [] == c.options.environment;
    } else {
      var head := settings[0].setting;
      EnvsKeepOrder(Apply(c, head), settings[1..]);
      KeptByOne(c, settings[0]);
      Assoc(c.options.environment, if head.Env? then [head.value] else [], EnvsIn(settings[1..]));
    }
  }

  lemma {:induction false} TestDirsKeepOrder(c: Config, settings: seq<Spelled>)
    ensures ApplyAll(c, settings).options.testDirectories == c.options.testDirectories + TestDirsIn(settings)
    decreases |settings|
  {
    if settings == [] {
      assert c.options.testDirectories + [] == c.options.testDirectories;
    } else {
      var head := settings[0].setting;
      TestDirsKeepOrder(Apply(c, head), settings[1..]);
      KeptByOne(c, settings[0]);
      Assoc(c.options.testDirectories, if head.TestDir? then [head.path] else [], TestDirsIn(settings[1..]));
    }
  }

  /** Whatever the options and their order: program arguments, assignments and directories are
      all kept, in the order they were given. */
  lemma RepeatedKeepOrder(c: Config, settings: seq<Spelled>)
    ensures var o, n := c.options, ApplyAll(c, settings).options;
      && n.programArgs == o.programArgs + RunArgsIn(settings)
      && n.environment == o.environment + EnvsIn(settings)
      && n.testDirectories == o.testDirectories + TestDirsIn(settings)
  {
    RunArgsKeepOrder(c, settings);
    EnvsKeepOrder(c, settings);
    TestDirsKeepOrder(c, settings);
  }

  /** One setting adds to its own list only. */
  lemma KeptByOne(c: Config, s: Spelled)
    ensures var o, n := c.options, Apply(c, s.setting).options;
      && n.programArgs == o.programArgs + (if s.setting.RunArg? then [s.setting.value] else [])
      && n.environment == o.environment + (if s.setting.Env? then [s.setting.value] else [])
      && n.testDirectories == o.testDirectories + (if s.setting.TestDir? then [s.setting.path] else [])
  {
    match s.setting
    case Output(_) | Cwd(_) | OutputDir(_) =>
    case RunArg(_) | Env(_) | TestDir(_) =>
    case Timeout(_) | Format(_) =>
    case Strict | NoRun | ShowOutput | ShowEvents =>
  }

  // ---- Every valid configuration can be asked for ----

  /** What a command line can ask for. */
  predicate ValidConfig(c: Config) {
    && c.options.compilerArgs == []
    && (forall k :: 0 <= k < |c.options.environment| ==> IsAssignment(c.options.environment[k]))
    && 0 <= c.options.timeout && c.options.timeout % 1000 == 0 && c.options.timeout / 1000 <= INT64_MAX / 1000
    && (c.options.explicitOutputPath || c.options.outputPath == DEFAULT_OUTPUT)
  }

  function Plain(s: Setting): Spelled {
    Spelled(s, false, false)
  }

  function RunArgs(values: seq<string>): seq<Spelled> {
    seq(|values|, i requires 0 <= i < |values| => Plain(RunArg(values[i])))
  }

  function Envs(values: seq<string>): seq<Spelled> {
    seq(|values|, i requires 0 <= i < |values| => Plain(Env(values[i])))
  }

  function TestDirs(values: seq<string>): seq<Spelled> {
    seq(|values|, i requires 0 <= i < |values| => Plain(TestDir(values[i])))
  }

  function If(b: bool, s: Setting): seq<Spelled> {
    if b then [Plain(s)] else []
  }

  /** The settings of a configuration, one of each scalar kind. */
  function SettingsOf(c: Config): seq<Spelled> {
    var o := c.options;
    RunArgs(o.programArgs) + (Envs(o.environment) + (TestDirs(o.testDirectories) + Scalars(c)))
  }

  function Scalars(c: Config): seq<Spelled> {
    var o := c.options;
    [Plain(OutputDir(o.outputDirectory)), Plain(Cwd(o.workingDirectory)),
     Plain(Timeout(o.timeout / 1000)), Plain(Format(c.sarif))]
    + (If(o.explicitOutputPath, Output(o.outputPath)) + (If(!o.runProgram, NoRun)
    + (If(o.showProgramOutput, ShowOutput) + (If(o.showEvents, ShowEvents) + If(o.strictTestExit, Strict)))))
  }

  lemma {:induction false} ApplyRunArgs(c: Config, values: seq<string>)
    ensures ApplyAll(c, RunArgs(values)) == c.(options := c.options.(programArgs := c.options.programArgs + values))
    decreases |values|
  {
    if values == [] {
      assert c.options.programArgs + values == c.options.programArgs;
    } else {
      var next := Apply(c, RunArg(values[0]));
      assert RunArgs(values)[1..] == RunArgs(values[1..]);
      ApplyRunArgs(next, values[1..]);
      assert next.options.programArgs + values[1..] == c.options.programArgs + values;
    }
  }

  lemma {:induction false} ApplyEnvs(c: Config, values: seq<string>)
    ensures ApplyAll(c, Envs(values)) == c.(options := c.options.(environment := c.options.environment + values))
    decreases |values|
  {
    if values == [] {
      assert c.options.environment + values == c.options.environment;
    } else {
      var next := Apply(c, Env(values[0]));
      assert Envs(values)[1..] == Envs(values[1..]);
      ApplyEnvs(next, values[1..]);
      assert next.options.environment + values[1..] == c.options.environment + values;
    }
  }

  lemma {:induction false} ApplyTestDirs(c: Config, values: seq<string>)
    ensures ApplyAll(c, TestDirs(values))
      == c.(options := c.options.(testDirectories := c.options.testDirectories + values))
    decreases |values|
  {
    if values == [] {
      assert c.options.testDirectories + values == c.options.testDirectories;
    } else {
      var next := Apply(c, TestDir(values[0]));
      assert TestDirs(values)[1..] == TestDirs(values[1..]);
      ApplyTestDirs(next, values[1..]);
      assert next.options.testDirectories + values[1..] == c.options.testDirectories + values;
    }
  }

  /** One flag or one path of the configuration. */
  lemma ApplyIf(c: Config, b: bool, s: Setting, rest: seq<Spelled>)
    ensures ApplyAll(c, If(b, s) + rest) == ApplyAll(if b then Apply(c, s) else c, rest)
  {
    if b {
      assert ([Plain(s)] + rest)[1..] == rest;
    } else {
      assert [] + rest == rest;
    }
  }

  lemma ApplyNext(c: Config, head: Spelled, rest: seq<Spelled>)
    ensures ApplyAll(c, [head] + rest) == ApplyAll(Apply(c, head.setting), rest)
  {
    assert ([head] + rest)[1..] == rest;
  }

  lemma ApplyFour(c: Config, a: Spelled, b: Spelled, d: Spelled, e: Spelled, rest: seq<Spelled>)
    ensures ApplyAll(c, [a, b, d, e] + rest)
      == ApplyAll(Apply(Apply(Apply(Apply(c, a.setting), b.setting), d.setting), e.setting), rest)
  {
    var c1 := Apply(c, a.setting);
    var c2 := Apply(c1, b.setting);
    var c3 := Apply(c2, d.setting);
    assert [a, b, d, e] + rest == [a] + ([b] + ([d] + ([e] + rest)));
    ApplyNext(c, a, [b] + ([d] + ([e] + rest)));
    ApplyNext(c1, b, [d] + ([e] + rest));
    ApplyNext(c2, d, [e] + rest);
    ApplyNext(c3, e, rest);
  }

  /** The directories, the timeout and the format of a configuration. */
  function WithPlaces(base: Config, c: Config): Config {
    Config(base.options.(outputDirectory := c.options.outputDirectory, workingDirectory := c.options.workingDirectory,
                         timeout := c.options.timeout), c.sarif)
  }

  lemma TimeoutApplied(c: Config, timeout: nat)
    requires timeout % 1000 == 0 && timeout / 1000 <= INT64_MAX / 1000
    ensures Apply(c, Timeout(timeout / 1000)) == c.(options := c.options.(timeout := timeout))
  {
    MillisecondsExact(timeout / 1000);
  }

  lemma PlacesApplied(base: Config, c: Config, timeout: Setting)
    requires forall c0 :: Apply(c0, timeout) == c0.(options := c0.options.(timeout := c.options.timeout))
    ensures var o := c.options;
      Apply(Apply(Apply(Apply(base, OutputDir(o.outputDirectory)), Cwd(o.workingDirectory)), timeout), Format(c.sarif))
        == WithPlaces(base, c)
  {
  }

  lemma ApplyPlaces(base: Config, c: Config, tail: seq<Spelled>)
    requires ValidConfig(c)
    ensures var o := c.options;
      ApplyAll(base, [Plain(OutputDir(o.outputDirectory)), Plain(Cwd(o.workingDirectory)),
                      Plain(Timeout(o.timeout / 1000)), Plain(Format(c.sarif))] + tail)
        == ApplyAll(WithPlaces(base, c), tail)
  {
    var o := c.options;
    var timeout := Timeout(o.timeout / 1000);
    forall c0 ensures Apply(c0, timeout) == c0.(options := c0.options.(timeout := o.timeout)) {
      TimeoutApplied(c0, o.timeout);
    }
    PlacesApplied(base, c, timeout);
    ApplyFour(base, Plain(OutputDir(o.outputDirectory)), Plain(Cwd(o.workingDirectory)), Plain(timeout),
              Plain(Format(c.sarif)), tail);
  }

  /** The scalar options of a configuration, applied where they still have their defaults. */
  lemma ApplyScalars(base: Config, c: Config)
    requires ValidConfig(c)
    requires base == Config(DEFAULTS.(programArgs := c.options.programArgs, environment := c.options.environment,
                                      testDirectories := c.options.testDirectories), false)
    ensures ApplyAll(base, Scalars(c)) == c
  {
    var o := c.options;
    var flags := If(o.showProgramOutput, ShowOutput) + (If(o.showEvents, ShowEvents) + If(o.strictTestExit, Strict));
    var tail := If(o.explicitOutputPath, Output(o.outputPath)) + (If(!o.runProgram, NoRun) + flags);
    ApplyPlaces(base, c, tail);
    var c1 := WithPlaces(base, c);
    var c2 := if o.explicitOutputPath then Apply(c1, Output(o.outputPath)) else c1;
    ApplyIf(c1, o.explicitOutputPath, Output(o.outputPath), If(!o.runProgram, NoRun) + flags);
    var c3 := if !o.runProgram then Apply(c2, NoRun) else c2;
    ApplyIf(c2, !o.runProgram, NoRun, flags);
    ApplyFlags(c3, c);
  }

  lemma ApplyFlags(base: Config, c: Config)
    requires !base.options.showProgramOutput && !base.options.showEvents && !base.options.strictTestExit
    ensures var o := c.options;
      ApplyAll(base, If(o.showProgramOutput, ShowOutput)
                       + (If(o.showEvents, ShowEvents) + If(o.strictTestExit, Strict)))
        == base.(options := base.options.(showProgramOutput := o.showProgramOutput, showEvents := o.showEvents,
                                          strictTestExit := o.strictTestExit))
  {
    var o := c.options;
    var last := If(o.strictTestExit, Strict);
    ApplyIf(base, o.showProgramOutput, ShowOutput, If(o.showEvents, ShowEvents) + last);
    var c1 := if o.showProgramOutput then Apply(base, ShowOutput) else base;
    ApplyIf(c1, o.showEvents, ShowEvents, last);
    var c2 := if o.showEvents then Apply(c1, ShowEvents) else c1;
    ApplyIf(c2, o.strictTestExit, Strict, []);
    assert last + [] == last;
  }

  lemma SettingsAreValid(c: Config)
    requires ValidConfig(c)
    ensures AllValid(SettingsOf(c))
  {
  }

  lemma ApplySettings(c: Config)
    requires ValidConfig(c)
    ensures ApplyAll(START, SettingsOf(c)) == c
  {
    var o := c.options;
    var scalars := Scalars(c);
    ApplyAllConcat(START, RunArgs(o.programArgs), Envs(o.environment) + (TestDirs(o.testDirectories) + scalars));
    ApplyRunArgs(START, o.programArgs);
    var c1 := START.(options := START.options.(programArgs := [] + o.programArgs));
    assert [] + o.programArgs == o.programArgs;
    ApplyAllConcat(c1, Envs(o.environment), TestDirs(o.testDirectories) + scalars);
    ApplyEnvs(c1, o.environment);
    var c2 := c1.(options := c1.options.(environment := [] + o.environment));
    assert [] + o.environment == o.environment;
    ApplyAllConcat(c2, TestDirs(o.testDirectories), scalars);
    ApplyTestDirs(c2, o.testDirectories);
    var c3 := c2.(options := c2.options.(testDirectories := [] + o.testDirectories));
    assert [] + o.testDirectories == o.testDirectories;
    ApplyScalars(c3, c);
  }

  /** Rendering any valid configuration and compiler arguments, and parsing them, gives them back. */
  lemma OptionsRoundTrip(spell: Speller, c: Config, compilerArgs: seq<string>)
    requires GoodSpeller(spell) && ValidConfig(c)
    requires compilerArgs != [] || c.options.testDirectories != []
    ensures AllValid(SettingsOf(c))
    ensures ParseFrom(spell, START, RenderAll(spell, SettingsOf(c)) + ([spell(Separator)] + compilerArgs))
      == ParseResult(true, false, false, c.options.(compilerArgs := compilerArgs), c.sarif, NoError)
  {
    SettingsAreValid(c);
    ReadsRendered(spell, START, SettingsOf(c));
    ForwardsVerbatim(spell, START, RenderAll(spell, SettingsOf(c)), compilerArgs);
    ApplySettings(c);
  }

  /** The round trip with the options spelled as the analyzer spells them. */
  lemma AnalyzerOptionsRoundTrip(c: Config, compilerArgs: seq<string>)
    requires ValidConfig(c) && (compilerArgs != [] || c.options.testDirectories != [])
    ensures AllValid(SettingsOf(c))
    ensures ParseFrom(Spelling, START, RenderAll(Spelling, SettingsOf(c)) + (["--"] + compilerArgs))
      == ParseResult(true, false, false, c.options.(compilerArgs := compilerArgs), c.sarif, NoError)
  {
    SpellingIsGood();
    OptionsRoundTrip(Spelling, c, compilerArgs);
  }
}
