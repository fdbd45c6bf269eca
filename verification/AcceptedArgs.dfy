/**
 What the command line accepts (`ParseArgs` of src/cli_args.cpp), from the accepted arguments
 back: each option by its spelling and the form of its value, and every refusal by its message.
 */
module AcceptedArgs {
  import opened Text
  import opened CliArgs

  // ---- The form of a value ----

  /** A nonempty name, an equals sign and anything. */
  ghost predicate Assigns(value: string) {
    value != "" && value[0] != '=' && exists i :: 0 <= i < |value| && value[i] == '='
  }

  /** Blanks, a sign or none, and digits to the last byte. */
  predicate SecondsSpelt(value: string, blanks: string, sign: string, digits: string) {
    && value == blanks + sign + digits && digits != ""
    && (forall i :: 0 <= i < |blanks| ==> blanks[i] in {' ', '\t', '\n', '\U{0B}', '\U{0C}', '\r'})
    && sign in {"", "+", "-"}
    && forall i :: 0 <= i < |digits| ==> '0' <= digits[i] <= '9'
  }

  /** The value spells the seconds, within 64 bits and not negative. */
  ghost predicate SpellsSeconds(value: string, seconds: int) {
    && 0 <= seconds <= 0x7FFF_FFFF_FFFF_FFFF
    && exists blanks, sign, digits ::
         SecondsSpelt(value, blanks, sign, digits) && DecValue(digits) == if sign == "-" then -seconds else seconds
  }

  lemma AssignsMeaning(value: string)
    ensures IsAssignment(value) <==> Assigns(value)
  {
    IndexMeaning(value, '=');
  }

  lemma {:induction false} BlanksSkipped(blanks: string, rest: string)
    requires forall i :: 0 <= i < |blanks| ==> blanks[i] in {' ', '\t', '\n', '\U{0B}', '\U{0C}', '\r'}
    requires rest != "" && !IsBlank(rest[0])
    ensures SkipBlanks(blanks + rest) == |blanks|
  {
    if blanks == "" {
      assert blanks + rest == rest;
    } else {
      assert (blanks + rest)[1..] == blanks[1..] + rest;
      BlanksSkipped(blanks[1..], rest);
    }
  }

  lemma {:induction false} SkippedAreBlanks(value: string)
    ensures forall i :: 0 <= i < SkipBlanks(value) ==> value[i] in {' ', '\t', '\n', '\U{0B}', '\U{0C}', '\r'}
  {
    if value != "" && IsBlank(value[0]) {
      SkippedAreBlanks(value[1..]);
      forall i | 0 <= i < SkipBlanks(value) ensures value[i] in {' ', '\t', '\n', '\U{0B}', '\U{0C}', '\r'} {
        if i > 0 {
          assert value[i] == value[1..][i - 1];
        }
      }
    }
  }

  /** Where the blanks, the sign and the digits of a spelled value end. */
  lemma SpeltParts(value: string, blanks: string, sign: string, digits: string)
    requires SecondsSpelt(value, blanks, sign, digits) && AllDigits(digits)
    ensures SkipBlanks(value) == |blanks| < |value|
    ensures (value[|blanks|] == '-' <==> sign == "-") && (value[|blanks|] == '+' <==> sign == "+")
    ensures value[|blanks| + |sign|..] == digits
  {
    Assoc(blanks, sign, digits);
    SignThenDigits(sign, digits);
    BlanksSkipped(blanks, sign + digits);
    RestOf(blanks, sign + digits);
    RestOf(blanks + sign, digits);
  }

  lemma RestOf(head: string, rest: string)
    requires rest != ""
    ensures (head + rest)[|head|..] == rest && (head + rest)[|head|] == rest[0]
  {
  }

  lemma SignThenDigits(sign: string, digits: string)
    requires sign in {"", "+", "-"} && digits != "" && AllDigits(digits)
    ensures var rest := sign + digits;
      !IsBlank(rest[0]) && (rest[0] == '-' <==> sign == "-") && (rest[0] == '+' <==> sign == "+")
  {
    if sign == "" {
      assert (sign + digits)[0] == digits[0];
    } else {
      assert (sign + digits)[0] == sign[0];
    }
  }

  /** What is spelled is read. */
  lemma SpeltIsRead(value: string, blanks: string, sign: string, digits: string)
    requires SecondsSpelt(value, blanks, sign, digits)
    requires AllDigits(digits) && DecValue(digits) <= INT64_MAX
    ensures ReadSeconds(value) == Stoll(|value|, if sign == "-" then -(DecValue(digits) as int) else DecValue(digits))
  {
    SpeltParts(value, blanks, sign, digits);
    DigitPrefixWhole(digits);
    assert digits[..|digits|] == digits;
  }

  lemma ThreeParts(s: string, m: nat, n: nat)
    requires m <= n <= |s|
    ensures s == s[..m] + s[m..n] + s[n..]
  {
    assert s[..n] == s[..m] + s[m..n];
    assert s == s[..n] + s[n..];
  }

  /** What is read to its last byte is spelled. */
  lemma ReadIsSpelt(value: string)
    requires var read := ReadSeconds(value); read.consumed == |value| && read.seconds >= 0
    ensures SpellsSeconds(value, ReadSeconds(value).seconds)
  {
    var n := SkipBlanks(value);
    SkippedAreBlanks(value);
    var signed := n < |value| && (value[n] == '-' || value[n] == '+');
    var start := if signed then n + 1 else n;
    var blanks, sign, digits := value[..n], value[n..start], value[start..];
    ThreeParts(value, n, start);
    DigitPrefixWhole(digits);
    assert digits[..|digits|] == digits;
    assert signed ==> sign == [value[n]];
    assert forall i :: 0 <= i < |digits| ==> IsDigit(digits[i]);
    assert SecondsSpelt(value, blanks, sign, digits);
  }

  /** A timeout is accepted exactly when its value spells the seconds. */
  lemma TimeoutMeaning(value: string, seconds: int)
    ensures TimeoutReading(Some(value)) == Set(Timeout(seconds), 2) <==> SpellsSeconds(value, seconds)
  {
    if TimeoutReading(Some(value)) == Set(Timeout(seconds), 2) {
      ReadIsSpelt(value);
    }
    if SpellsSeconds(value, seconds) {
      var blanks, sign, digits :|
        SecondsSpelt(value, blanks, sign, digits) && DecValue(digits) == if sign == "-" then -seconds else seconds;
      assert DecValue(digits) >= 0;
      SpeltIsRead(value, blanks, sign, digits);
    }
  }

  // ---- What an option asks for ----

  /** The setting a name and the value after it ask for. */
  ghost predicate TakesValue(name: Name, value: string, setting: Setting) {
    match name
    case OutputShort | OutputLong => setting == Output(value)
    case RunArgLong => setting == RunArg(value)
    case EnvLong => setting == Env(value) && Assigns(value)
    case CwdLong => setting == Cwd(value)
    case TimeoutLong => setting.Timeout? && SpellsSeconds(value, setting.seconds)
    case TestDirLong => setting == TestDir(value)
    case OutputDirLong => setting == OutputDir(value)
    case FormatLong => (setting == Format(false) && value == "text") || (setting == Format(true) && value == "sarif")
    case _ => false
  }

  /** The setting a name asks for by itself. */
  predicate StandsAlone(name: Name, setting: Setting) {
    match name
    case StrictLong => setting == Strict
    case NoRunLong => setting == NoRun
    case ShowOutputLong => setting == ShowOutput
    case ShowEventsLong => setting == ShowEvents
    case _ => false
  }

  /** The setting an argument with its value joined asks for. */
  predicate Joined(arg: string, setting: Setting) {
    || (setting.Output? && arg == "--output=" + setting.path)
    || (setting == Format(false) && arg == "--format=text")
    || (setting == Format(true) && arg == "--format=sarif")
  }

  /** The first arguments, as many as are used, spell the setting. */
  ghost predicate Spelt(spell: Speller, args: seq<string>, setting: Setting, used: nat)
    requires args != []
  {
    || (used == 2 && |args| >= 2 && exists name :: args[0] == spell(name) && TakesValue(name, args[1], setting))
    || (used == 1 && exists name :: args[0] == spell(name) && StandsAlone(name, setting))
    || (used == 1 && Joined(args[0], setting))
  }

  /** A name is recognised exactly by its spelling. */
  lemma NameOfMeaning(spell: Speller, arg: string)
    requires GoodSpeller(spell)
    ensures forall name :: NameOf(spell, arg) == Some(name) <==> arg == spell(name)
  {
    NameInFound(spell, NAMES, arg);
    forall name | arg == spell(name) ensures NameOf(spell, arg) == Some(name) {
      NameOfSpelling(spell, name);
    }
  }

  lemma {:induction false} NameInFound(spell: Speller, names: seq<Name>, arg: string)
    ensures NameIn(spell, names, arg).Some? ==> arg == spell(NameIn(spell, names, arg).value)
  {
    if names != [] && spell(names[0]) != arg {
      NameInFound(spell, names[1..], arg);
    }
  }

  /** A name with its value is read as what it asks for. */
  lemma NamedMeaning(name: Name, arg: string, value: Option<string>, setting: Setting, used: nat)
    ensures NamedReading(name, arg, value) == Set(setting, used)
      <==> || (used == 2 && value.Some? && TakesValue(name, value.value, setting))
           || (used == 1 && StandsAlone(name, setting))
  {
    if value.Some? {
      AssignsMeaning(value.value);
      if setting.Timeout? {
        TimeoutMeaning(value.value, setting.seconds);
      }
    }
  }

  lemma JoinedMeaning(arg: string, setting: Setting, used: nat)
    ensures JoinedReading(arg) == Set(setting, used) <==> used == 1 && Joined(arg, setting)
  {
    JoinedPrefix(arg, "--output=");
    JoinedPrefix(arg, "--format=");
    if StartsWith(arg, "--output=") {
      MatchAtIndex(arg, "--output=", 0, 2);
    }
    if StartsWith(arg, "--format=") {
      MatchAtIndex(arg, "--format=", 0, 2);
    }
    assert "--format=" + "text" == "--format=text" && "--format=" + "sarif" == "--format=sarif";
    if setting.Output? && arg == "--output=" + setting.path {
      assert arg[9..] == setting.path;
    }
  }

  lemma JoinedPrefix(arg: string, prefix: string)
    ensures StartsWith(arg, prefix) <==> |prefix| <= |arg| && arg == prefix + arg[|prefix|..]
  {
    if |prefix| <= |arg| && arg == prefix + arg[|prefix|..] {
      assert forall k :: 0 <= k < |prefix| ==> arg[0 + k] == prefix[k];
    }
  }

  /** An option is accepted exactly when the arguments spell it; the others stop the options, ask
      for help or for the version, or are refused. */
  lemma OptionMeaning(spell: Speller, args: seq<string>, setting: Setting, used: nat)
    requires GoodSpeller(spell) && args != []
    ensures ReadOption(spell, args) == Set(setting, used) <==> Spelt(spell, args, setting, used)
  {
    NameOfMeaning(spell, args[0]);
    var value := if |args| > 1 then Some(args[1]) else None;
    match NameOf(spell, args[0])
    case Some(name) =>
      NamedMeaning(name, args[0], value, setting, used);
      NotJoined(spell, name, setting);
    case None => JoinedMeaning(args[0], setting, used);
  }

  lemma NotJoined(spell: Speller, name: Name, setting: Setting)
    requires GoodSpeller(spell)
    ensures !Joined(spell(name), setting)
  {
    if Joined(spell(name), setting) {
      JoinedHasEquals(spell(name), setting);
      assert false;
    }
  }

  lemma JoinedHasEquals(arg: string, setting: Setting)
    requires Joined(arg, setting)
    ensures !Lacks(arg, '=')
  {
    assert arg[8] == '=';
  }

  lemma StopMeaning(spell: Speller, args: seq<string>)
    requires GoodSpeller(spell) && args != []
    ensures ReadOption(spell, args) == Stop <==> args[0] == spell(Separator)
    ensures ReadOption(spell, args) == ShowHelp <==> args[0] == spell(HelpShort) || args[0] == spell(HelpLong)
    ensures ReadOption(spell, args) == ShowVersion <==> args[0] == spell(VersionLong)
  {
    NameOfMeaning(spell, args[0]);
    match NameOf(spell, args[0])
    case Some(name) => NamedStops(name, args[0], if |args| > 1 then Some(args[1]) else None);
    case None =>
  }

  lemma NamedStops(name: Name, arg: string, value: Option<string>)
    ensures NamedReading(name, arg, value) == Stop <==> name == Separator
    ensures NamedReading(name, arg, value) == ShowHelp <==> name == HelpShort || name == HelpLong
    ensures NamedReading(name, arg, value) == ShowVersion <==> name == VersionLong
  {
  }

  // ---- Whole command lines ----

  function Flat(pieces: seq<seq<string>>): seq<string> {
    if pieces == [] then [] else pieces[0] + Flat(pieces[1..])
  }

  /** Each piece spells the setting at its place, with all of its arguments. */
  ghost predicate SpellsEach(spell: Speller, pieces: seq<seq<string>>, settings: seq<Spelled>) {
    && |pieces| == |settings|
    && forall i :: 0 <= i < |pieces| ==>
         pieces[i] != [] && Spelt(spell, pieces[i], settings[i].setting, |pieces[i]|)
  }

  lemma SpeltAlone(spell: Speller, args: seq<string>, setting: Setting, used: nat)
    requires args != [] && Spelt(spell, args, setting, used)
    ensures 1 <= used <= |args| && Spelt(spell, args[..used], setting, used)
  {
  }

  lemma SpellsOneMore(spell: Speller, piece: seq<string>, setting: Setting, pieces: seq<seq<string>>,
                      settings: seq<Spelled>)
    requires piece != [] && Spelt(spell, piece, setting, |piece|) && SpellsEach(spell, pieces, settings)
    ensures SpellsEach(spell, [piece] + pieces, [Plain(setting)] + settings)
  {
  }

  lemma ApplyOneMore(c: Config, setting: Setting, settings: seq<Spelled>)
    ensures ApplyAll(c, [Plain(setting)] + settings) == ApplyAll(Apply(c, setting), settings)
  {
    assert ([Plain(setting)] + settings)[1..] == settings;
  }

  lemma FlatOneMore(args: seq<string>, used: nat, pieces: seq<seq<string>>, rest: seq<string>)
    requires used <= |args| && args[used..] == Flat(pieces) + rest
    ensures args == Flat([args[..used]] + pieces) + rest
  {
    assert ([args[..used]] + pieces)[1..] == pieces;
    assert args == args[..used] + args[used..];
  }

  /** Every accepted command line consists of spelled options, and then nothing or "--" and what
      is forwarded to the compiler; its options are the settings applied in order. */
  lemma {:induction false} AcceptedIsSpelt(spell: Speller, c: Config, args: seq<string>)
    returns (pieces: seq<seq<string>>, settings: seq<Spelled>, rest: seq<string>)
    requires GoodSpeller(spell)
    requires var result := ParseFrom(spell, c, args); result.ok && !result.help && !result.version
    ensures args == Flat(pieces) + rest && SpellsEach(spell, pieces, settings)
    ensures rest == [] || rest[0] == spell(Separator)
    ensures var result, end := ParseFrom(spell, c, args), ApplyAll(c, settings);
      var compilerArgs := if rest == [] then [] else rest[1..];
      && result.options == end.options.(compilerArgs := compilerArgs) && result.sarif == end.sarif
      && (compilerArgs != [] || end.options.testDirectories != [])
    decreases |args|
  {
    pieces, settings, rest := [], [], args;
    if args != [] {
      StopMeaning(spell, args);
      if ReadOption(spell, args).Set? {
        var Set(setting, used) := ReadOption(spell, args);
        OptionMeaning(spell, args, setting, used);
        SpeltAlone(spell, args, setting, used);
        pieces, settings, rest := AcceptedIsSpelt(spell, Apply(c, setting), args[used..]);
        SpellsOneMore(spell, args[..used], setting, pieces, settings);
        ApplyOneMore(c, setting, settings);
        FlatOneMore(args, used, pieces, rest);
        pieces, settings := [args[..used]] + pieces, [Plain(setting)] + settings;
      }
    }
  }

  /** Asking for help or for the version, after any options, is answered by just that. */
  lemma HelpMeaning(spell: Speller, c: Config, args: seq<string>)
    requires GoodSpeller(spell) && args != []
    ensures args[0] == spell(HelpShort) || args[0] == spell(HelpLong) ==>
      var result := ParseFrom(spell, c, args); result.ok && result.help && !result.version
    ensures args[0] == spell(VersionLong) ==>
      var result := ParseFrom(spell, c, args); result.ok && result.version && !result.help
  {
    StopMeaning(spell, args);
  }

  /** What holds without any option: the analyzer's defaults. */
  lemma DefaultsMeaning(compilerArgs: seq<string>)
    requires compilerArgs != []
    ensures ParseFrom(Spelling, CliArgs.START, ["--"] + compilerArgs)
      == ParseResult(true, false, false,
                     Options(compilerArgs, [], [], [], "runtime-analyzer.out", "runtime-analyzer-artifacts", "", 60000,
                             false, true, false, false, false), false, NoError)
  {
    SpellingIsGood();
    StopMeaning(Spelling, ["--"] + compilerArgs);
    assert (["--"] + compilerArgs)[1..] == compilerArgs;
  }

  // ---- Refusals ----

  /** Once the options are over there must be something to compile or a test directory. */
  lemma NothingToDo(c: Config, compilerArgs: seq<string>)
    ensures var result := Finish(c, compilerArgs);
      && (result.ok <==> compilerArgs != [] || c.options.testDirectories != [])
      && (!result.ok ==> Message(result.error) == "missing compiler arguments; use -- <compiler args>")
  {
  }

  /** The message an option is refused with; `alone` when no argument follows it. */
  function Complaint(name: Name, arg: string, alone: bool): string {
    match name
    case OutputShort | OutputLong => arg + " requires a value"
    case RunArgLong => "--run-arg requires a value"
    case EnvLong => "--env requires NAME=VALUE"
    case CwdLong => "--cwd requires a path"
    case TimeoutLong =>
      if alone then "--timeout requires a number of seconds" else "--timeout requires a non-negative number of seconds"
    case TestDirLong => "--test-dir requires a path"
    case OutputDirLong => "--output-dir requires a path"
    case FormatLong => "--format requires text or sarif"
    case _ => ""
  }

  /** What every refused option is refused with. */
  lemma RefusalMeaning(spell: Speller, args: seq<string>)
    requires GoodSpeller(spell) && args != [] && ReadOption(spell, args).Bad?
    ensures forall name :: args[0] == spell(name) ==>
      Message(ReadOption(spell, args).error) == Complaint(name, args[0], |args| < 2)
    ensures (forall name :: args[0] != spell(name)) ==>
      Message(ReadOption(spell, args).error)
        == if StartsWith(args[0], "--format=") then "--format requires text or sarif"
           else "unknown analyzer option: " + args[0] + " (compiler arguments go after --)"
  {
    NameOfMeaning(spell, args[0]);
    match NameOf(spell, args[0])
    case Some(name) => RefusedName(name, args[0], if |args| > 1 then Some(args[1]) else None);
    case None => RefusedArgument(args[0]);
  }

  lemma RefusedName(name: Name, arg: string, value: Option<string>)
    requires NamedReading(name, arg, value).Bad?
    ensures Message(NamedReading(name, arg, value).error) == Complaint(name, arg, value.None?)
  {
    match name
    case OutputShort | OutputLong => RefusedOutput(name, arg, value);
    case EnvLong => RefusedAssignment(arg, value);
    case TimeoutLong => RefusedTimeout(arg, value);
    case _ => RefusedAlone(name, arg, value);
  }

  lemma RefusedOutput(name: Name, arg: string, value: Option<string>)
    requires name in {OutputShort, OutputLong} && NamedReading(name, arg, value).Bad?
    ensures Message(NamedReading(name, arg, value).error) == Complaint(name, arg, value.None?)
  {
    assert OutputReading(arg, value) == Bad(NeedsOutput(arg));
  }

  lemma RefusedAssignment(arg: string, value: Option<string>)
    requires NamedReading(EnvLong, arg, value).Bad?
    ensures Message(NamedReading(EnvLong, arg, value).error) == Complaint(EnvLong, arg, value.None?)
  {
    assert EnvReading(value) == Bad(NeedsAssignment);
  }

  lemma RefusedTimeout(arg: string, value: Option<string>)
    requires NamedReading(TimeoutLong, arg, value).Bad?
    ensures Message(NamedReading(TimeoutLong, arg, value).error) == Complaint(TimeoutLong, arg, value.None?)
  {
    assert TimeoutReading(value) == Bad(if value.None? then NeedsTimeout else NeedsSeconds);
  }

  lemma RefusedAlone(name: Name, arg: string, value: Option<string>)
    requires name !in {OutputShort, OutputLong, EnvLong, TimeoutLong}
    requires NamedReading(name, arg, value).Bad?
    ensures Message(NamedReading(name, arg, value).error) == Complaint(name, arg, value.None?)
  {
  }

  lemma RefusedArgument(arg: string)
    requires JoinedReading(arg).Bad?
    ensures Message(JoinedReading(arg).error)
      == if StartsWith(arg, "--format=") then "--format requires text or sarif"
         else "unknown analyzer option: " + arg + " (compiler arguments go after --)"
  {
  }
}
