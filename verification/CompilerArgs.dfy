/**
 The compiler arguments the analyzer derives from its options and from a source
 (src/cli_args.cpp).
 */
module CompilerArgs {
  import opened Text
  import opened Paths
  import CliArgs

  // ---- Flags ----

  const COMPILE_ONLY := ["-c", "-S", "-E", "-emit-llvm", "--precompile", "-fsyntax-only"]

  predicate CompilesOnly(args: seq<string>) {
    exists i :: 0 <= i < |args| && args[i] in COMPILE_ONLY
  }

  predicate IsCompileOnlyFlag(arg: string) {
    arg == "-c" || arg == "-S" || arg == "-E" || arg == "-emit-llvm" || arg == "--precompile" || arg == "-fsyntax-only"
  }

  /** `any_of` over the arguments. */
  method HasCompileOnlyAction(args: seq<string>) returns (found: bool)
    ensures found <==> CompilesOnly(args)
  {
    for i := 0 to |args|
      invariant forall j :: 0 <= j < i ==> args[j] !in COMPILE_ONLY
    {
      FlagsMeaning(args[i]);
      if IsCompileOnlyFlag(args[i]) {
        return true;
      }
    }
    return false;
  }

  lemma FlagsMeaning(arg: string)
    ensures IsCompileOnlyFlag(arg) <==> arg in COMPILE_ONLY
  {
    assert COMPILE_ONLY[0] == "-c" && COMPILE_ONLY[1] == "-S" && COMPILE_ONLY[2] == "-E";
    assert COMPILE_ONLY[3] == "-emit-llvm" && COMPILE_ONLY[4] == "--precompile" && COMPILE_ONLY[5] == "-fsyntax-only";
  }

  /** A language is chosen when an argument starts with "-x", alone or joined to its value. */
  predicate OverridesLanguage(args: seq<string>) {
    exists i :: 0 <= i < |args| && StartsWith(args[i], "-x")
  }

  method HasLanguageOverride(args: seq<string>) returns (found: bool)
    ensures found <==> OverridesLanguage(args)
  {
    for i := 0 to |args|
      invariant forall j :: 0 <= j < i ==> !StartsWith(args[j], "-x")
    {
      if args[i] == "-x" && i + 1 < |args| {
        return true;
      }
      if StartsWith(args[i], "-x=") || StartsWith(args[i], "-x") {
        JoinedIsOverride(args[i]);
        return true;
      }
    }
    return false;
  }

  /** The first of the two prefixes adds nothing to the second. */
  lemma JoinedIsOverride(arg: string)
    ensures StartsWith(arg, "-x=") ==> StartsWith(arg, "-x")
  {
    var short, joined := "-x", "-x=";
    assert short[0] == joined[0] && short[1] == joined[1];
  }

  // ---- What a source needs ----

  /** What makes a C source C++, and what asks for the debug definition. */
  datatype SourceMarks = SourceMarks(cxx: seq<string>, debug: seq<string>)

  const MARKS := SourceMarks(
    ["#include <string>", "#include <iostream>", "std::", "static_cast<", "reinterpret_cast<", "class ",
     "namespace ", "template <", "virtual "],
    ["#ifndef DEBUG", "#if !defined(DEBUG)"])

  predicate CSourceLooksLikeCxx(marks: SourceMarks, source: string, text: string) {
    Extension(source) == ".c" && Mentions(text, marks.cxx)
  }

  predicate SourceRequiresDebugDefine(marks: SourceMarks, text: string) {
    Mentions(text, marks.debug)
  }

  predicate DefinesDebug(args: seq<string>) {
    exists i :: 0 <= i < |args| && (args[i] == "-DDEBUG" || args[i] == "-DDEBUG=1")
  }

  /** Appends what the source needs and the arguments lack; `text` is the source file's. */
  method AddPerSourceCompatibilityArgs(marks: SourceMarks, source: string, text: string, args: seq<string>)
    returns (args': seq<string>)
    ensures args' == args + Missing(marks, source, text, args)
  {
    args' := args;
    var found := HasLanguageOverride(args');
    if !found && CSourceLooksLikeCxx(marks, source, text) {
      args' := args' + ["-x"];
      args' := args' + ["c++"];
      DebugNeverInLanguage(args);
      assert args' == args + LANGUAGE;
    }
    if SourceRequiresDebugDefine(marks, text) && !DefinesDebug(args') {
      args' := args' + ["-DDEBUG"];
    }
  }

  const LANGUAGE := ["-x", "c++"]

  /** What is appended: each part needed and not there yet. */
  function Missing(marks: SourceMarks, source: string, text: string, args: seq<string>): seq<string> {
    (if CSourceLooksLikeCxx(marks, source, text) && !OverridesLanguage(args) then LANGUAGE else [])
    + (if SourceRequiresDebugDefine(marks, text) && !DefinesDebug(args) then ["-DDEBUG"] else [])
  }

  predicate LooksLikeCxx(text: string) {
    || Contains(text, "#include <string>") || Contains(text, "#include <iostream>") || Contains(text, "std::")
    || Contains(text, "static_cast<") || Contains(text, "reinterpret_cast<") || Contains(text, "class ")
    || Contains(text, "namespace ") || Contains(text, "template <") || Contains(text, "virtual ")
  }

  lemma MarksMeaning(text: string)
    ensures Mentions(text, MARKS.cxx) <==> LooksLikeCxx(text)
    ensures Mentions(text, MARKS.debug) <==> Contains(text, "#ifndef DEBUG") || Contains(text, "#if !defined(DEBUG)")
  {
    var first := ["#include <string>", "#include <iostream>", "std::", "static_cast<"];
    var second := ["reinterpret_cast<", "class ", "namespace ", "template <"];
    MentionsFour(text, first[0], first[1], first[2], first[3]);
    MentionsFour(text, second[0], second[1], second[2], second[3]);
    MentionsTwo(text, "virtual ", "");
    MentionsConcat(text, first, second);
    MentionsConcat(text, first + second, ["virtual "]);
    assert MARKS.cxx == first + second + ["virtual "];
    MentionsTwo(text, "#ifndef DEBUG", "#if !defined(DEBUG)");
  }

  /** What the analyzer adds for a source: the C++ language for a ".c" file that looks like C++,
      unless a language is chosen; the debug definition for a text that asks for it, unless given. */
  lemma CompatibilityMeaning(source: string, text: string, args: seq<string>)
    ensures var chosen := exists i :: 0 <= i < |args| && StartsWith(args[i], "-x");
      var defined := exists i :: 0 <= i < |args| && (args[i] == "-DDEBUG" || args[i] == "-DDEBUG=1");
      var cxx := Extension(source) == ".c" && LooksLikeCxx(text) && !chosen;
      var debug := (Contains(text, "#ifndef DEBUG") || Contains(text, "#if !defined(DEBUG)")) && !defined;
      Missing(MARKS, source, text, args)
        == (if cxx then ["-x", "c++"] else []) + (if debug then ["-DDEBUG"] else [])
  {
    MarksMeaning(text);
  }

  lemma DebugNeverInLanguage(args: seq<string>)
    ensures DefinesDebug(args + LANGUAGE) <==> DefinesDebug(args)
  {
    assert |LANGUAGE[0]| == 2 && |LANGUAGE[1]| == 3;
    if DefinesDebug(args) {
      var i :| 0 <= i < |args| && (args[i] == "-DDEBUG" || args[i] == "-DDEBUG=1");
      assert (args + LANGUAGE)[i] == args[i];
    }
  }

  lemma OverridesConcat(a: seq<string>, b: seq<string>)
    ensures OverridesLanguage(a + b) <==> OverridesLanguage(a) || OverridesLanguage(b)
  {
    if i :| 0 <= i < |a| && StartsWith(a[i], "-x") {
      assert (a + b)[i] == a[i];
    }
    if i :| 0 <= i < |b| && StartsWith(b[i], "-x") {
      assert (a + b)[|a| + i] == b[i];
    }
  }

  lemma DefinesConcat(a: seq<string>, b: seq<string>)
    ensures DefinesDebug(a + b) <==> DefinesDebug(a) || DefinesDebug(b)
  {
    if i :| 0 <= i < |a| && (a[i] == "-DDEBUG" || a[i] == "-DDEBUG=1") {
      assert (a + b)[i] == a[i];
    }
    if i :| 0 <= i < |b| && (b[i] == "-DDEBUG" || b[i] == "-DDEBUG=1") {
      assert (a + b)[|a| + i] == b[i];
    }
  }

  /** With what was missing a source has what it needs, so a second pass over the same text adds nothing. */
  lemma CompatibilityIsIdempotent(marks: SourceMarks, source: string, text: string, args: seq<string>)
    ensures var once := args + Missing(marks, source, text, args);
      && (CSourceLooksLikeCxx(marks, source, text) ==> OverridesLanguage(once))
      && (SourceRequiresDebugDefine(marks, text) ==> DefinesDebug(once))
      && Missing(marks, source, text, once) == []
  {
    var language := if CSourceLooksLikeCxx(marks, source, text) && !OverridesLanguage(args) then LANGUAGE else [];
    var debug := if SourceRequiresDebugDefine(marks, text) && !DefinesDebug(args) then ["-DDEBUG"] else [];
    OverridesConcat(args, language + debug);
    OverridesConcat(language, debug);
    DefinesConcat(args, language + debug);
    DefinesConcat(language, debug);
    if language != [] {
      assert StartsWith(language[0], "-x");
    }
    if debug != [] {
      assert debug[0] == "-DDEBUG";
    }
  }

  // ---- The output argument ----

  datatype OutputArgument = OutputArgument(present: bool, path: string)

  predicate Separate(arg: string) {
    arg == "-o" || arg == "--output"
  }

  predicate NamesOutput(arg: string) {
    Separate(arg) || StartsWith(arg, "-o=") || StartsWith(arg, "--output=")
  }

  /** The place of the first argument that names an output; the end if none does. */
  function FirstOutput(args: seq<string>): (n: nat)
    ensures n <= |args|
  {
    if args == [] || NamesOutput(args[0]) then 0 else 1 + FirstOutput(args[1..])
  }

  lemma {:induction false} FirstOutputMeaning(args: seq<string>)
    ensures var n := FirstOutput(args);
      (forall i :: 0 <= i < n ==> !NamesOutput(args[i])) && (n < |args| ==> NamesOutput(args[n]))
  {
    if args != [] && !NamesOutput(args[0]) {
      FirstOutputMeaning(args[1..]);
    }
  }

  /** The path the argument at `i` gives: in the next argument, or joined to it. */
  function PathAt(args: seq<string>, i: nat): string
    requires i < |args|
  {
    if Separate(args[i]) then if i + 1 < |args| then args[i + 1] else ""
    else if StartsWith(args[i], "-o=") then args[i][3..]
    else if StartsWith(args[i], "--output=") then args[i][9..]
    else ""
  }

  function OutputOf(args: seq<string>): OutputArgument {
    var n := FirstOutput(args);
    if n == |args| then OutputArgument(false, "") else OutputArgument(true, PathAt(args, n))
  }

  method FindOutputArgument(args: seq<string>) returns (result: OutputArgument)
    ensures result == OutputOf(args)
  {
    FirstOutputMeaning(args);
    result := OutputArgument(false, "");
    for i := 0 to |args|
      invariant i <= FirstOutput(args)
      invariant result == OutputArgument(false, "")
    {
      var arg := args[i];
      if arg == "-o" || arg == "--output" {
        result := result.(present := true);
        if i + 1 < |args| {
          result := result.(path := args[i + 1]);
        }
        return;
      }
      if StartsWith(arg, "-o=") {
        return OutputArgument(true, arg[3..]);
      }
      if StartsWith(arg, "--output=") {
        return OutputArgument(true, arg[9..]);
      }
    }
  }

  /** After arguments that name no output: the path given in the next argument or joined to this
      one, in each of the four forms; an argument at the very end gives none. */
  lemma OutputMeaning(before: seq<string>, path: string, after: seq<string>)
    requires forall i :: 0 <= i < |before| ==> !NamesOutput(before[i])
    ensures OutputOf(before + (["-o", path] + after)) == OutputArgument(true, path)
    ensures OutputOf(before + (["--output", path] + after)) == OutputArgument(true, path)
    ensures OutputOf(before + (["-o=" + path] + after)) == OutputArgument(true, path)
    ensures OutputOf(before + (["--output=" + path] + after)) == OutputArgument(true, path)
    ensures OutputOf(before + ["-o"]) == OutputArgument(true, "")
    ensures OutputOf(before + ["--output"]) == OutputArgument(true, "")
    ensures OutputOf(before) == OutputArgument(false, "")
  {
    SeparateOutput(before, "-o", path, after);
    SeparateOutput(before, "--output", path, after);
    JoinedOutput(before, "-o=", path, after);
    JoinedOutput(before, "--output=", path, after);
    OutputAfter(before, ["-o"]);
    OutputAfter(before, ["--output"]);
    OutputAfter(before, []);
    assert before + [] == before;
  }

  /** What follows arguments that name no output decides. */
  lemma OutputAfter(before: seq<string>, rest: seq<string>)
    requires forall i :: 0 <= i < |before| ==> !NamesOutput(before[i])
    ensures FirstOutput(before + rest) == |before| + FirstOutput(rest)
  {
    FirstOutputMeaning(before);
    FirstOutputConcat(before, rest);
  }

  lemma SeparateOutput(before: seq<string>, arg: string, path: string, after: seq<string>)
    requires forall i :: 0 <= i < |before| ==> !NamesOutput(before[i])
    requires arg == "-o" || arg == "--output"
    ensures OutputOf(before + ([arg, path] + after)) == OutputArgument(true, path)
  {
    OutputAfter(before, [arg, path] + after);
    assert (before + ([arg, path] + after))[|before| + 1] == path;
  }

  lemma JoinedOutput(before: seq<string>, prefix: string, path: string, after: seq<string>)
    requires forall i :: 0 <= i < |before| ==> !NamesOutput(before[i])
    requires prefix == "-o=" || prefix == "--output="
    ensures OutputOf(before + ([prefix + path] + after)) == OutputArgument(true, path)
  {
    var arg := prefix + path;
    assert arg[|prefix|..] == path && arg[|prefix| - 1] == '=';
    JoinedNames(prefix, path);
    OutputAfter(before, [arg] + after);
  }

  /** A joined form is read off the prefix it has, and off no other. */
  lemma JoinedNames(prefix: string, path: string)
    requires prefix == "-o=" || prefix == "--output="
    ensures var arg := prefix + path;
      && StartsWith(arg, prefix) && !Separate(arg) && (StartsWith(arg, "-o=") <==> prefix == "-o=")
  {
    var arg := prefix + path;
    assert arg[..|prefix|] == prefix;
    if prefix == "--output=" {
      assert arg[1] == '-';
      Mismatch(arg, "-o=", 0, 1);
    } else {
      assert arg[1] == 'o' && |arg| >= 3;
    }
  }

  lemma {:induction false} FirstOutputConcat(a: seq<string>, b: seq<string>)
    ensures FirstOutput(a + b) == if FirstOutput(a) < |a| then FirstOutput(a) else |a| + FirstOutput(b)
  {
    if a == [] {
      assert a + b == b;
    } else {
      assert (a + b)[1..] == a[1..] + b;
      FirstOutputConcat(a[1..], b);
    }
  }

  // ---- The arguments of a run ----

  const INSTRUMENT := "--instrument"

  function Dropped(args: seq<string>): (r: seq<string>)
    ensures |r| <= |args|
  {
    if args == [] then []
    else if args[0] == INSTRUMENT then Dropped(args[1..])
    else [args[0]] + Dropped(args[1..])
  }

  lemma {:induction false} DroppedConcat(a: seq<string>, b: seq<string>)
    ensures Dropped(a + b) == Dropped(a) + Dropped(b)
  {
    if a == [] {
      assert a + b == b;
    } else {
      assert (a + b)[1..] == a[1..] + b;
      DroppedConcat(a[1..], b);
    }
  }

  /** Every other argument is kept as often as it was there. */
  lemma {:induction false} DroppedKeepsTheRest(args: seq<string>)
    ensures multiset(Dropped(args)) == multiset(args)["--instrument" := 0]
  {
    if args != [] {
      assert args == [args[0]] + args[1..];
      DroppedKeepsTheRest(args[1..]);
    }
  }

  lemma DroppedSnoc(args: seq<string>, arg: string)
    ensures Dropped(args + [arg]) == if arg == INSTRUMENT then Dropped(args) else Dropped(args) + [arg]
  {
    DroppedConcat(args, [arg]);
    assert [arg][1..] == [];
  }

  /** The compiler's arguments and the path of the binary. */
  method BuildCompilerArguments(options: CliArgs.Options) returns (args: seq<string>, outputPath: string)
    ensures args == BuiltArguments(options)
    ensures OutputOf(args) == OutputArgument(true, outputPath)
    ensures !OutputOf(options.compilerArgs).present ==> outputPath == OwnOutput(options)
  {
    args := [];
    for i := 0 to |options.compilerArgs|
      invariant args == Dropped(options.compilerArgs[..i])
    {
      var arg := options.compilerArgs[i];
      assert options.compilerArgs[..i + 1] == options.compilerArgs[..i] + [arg];
      DroppedSnoc(options.compilerArgs[..i], arg);
      if arg == INSTRUMENT {
        continue;
      }
      args := args + [arg];
    }
    assert options.compilerArgs[..|options.compilerArgs|] == options.compilerArgs;
    DropKeepsPresence(options.compilerArgs);
    var output := FindOutputArgument(args);
    if output.present {
      return args, output.path;
    }
    outputPath := if options.outputPath == "" then CliArgs.DEFAULT_OUTPUT else options.outputPath;
    AppendedOutput(args, outputPath);
    args := args + ["-o"] + [outputPath];
  }

  function OwnOutput(options: CliArgs.Options): string {
    if options.outputPath == "" then CliArgs.DEFAULT_OUTPUT else options.outputPath
  }

  function BuiltArguments(options: CliArgs.Options): seq<string> {
    var args := Dropped(options.compilerArgs);
    if OutputOf(args).present then args else args + ["-o"] + [OwnOutput(options)]
  }

  /** An output appended where there was none is the one found. */
  lemma AppendedOutput(args: seq<string>, path: string)
    requires !OutputOf(args).present
    ensures OutputOf(args + ["-o"] + [path]) == OutputArgument(true, path)
  {
    assert args + ["-o"] + [path] == args + ["-o", path];
    FirstOutputConcat(args, ["-o", path]);
    assert NamesOutput(["-o", path][0]);
  }

  /** "--instrument" names no output. */
  lemma InstrumentNamesNoOutput()
    ensures !NamesOutput(INSTRUMENT)
  {
    Mismatch(INSTRUMENT, "-o=", 0, 1);
    Mismatch(INSTRUMENT, "--output=", 0, 2);
    assert |INSTRUMENT| == 12;
  }

  /** Where dropping moves the first output argument to. */
  lemma {:induction false} DroppedFirstOutput(args: seq<string>)
    ensures FirstOutput(Dropped(args)) == |Dropped(args[..FirstOutput(args)])|
    ensures FirstOutput(args) == |args| <==> FirstOutput(Dropped(args)) == |Dropped(args)|
  {
    InstrumentNamesNoOutput();
    if args != [] && !NamesOutput(args[0]) {
      var n := FirstOutput(args);
      assert args[..n][1..] == args[1..][..n - 1];
      DroppedFirstOutput(args[1..]);
      assert args[0] != INSTRUMENT ==> Dropped(args)[1..] == Dropped(args[1..]);
    }
  }

  /** Dropping "--instrument" changes nothing in whether an output is named. */
  lemma DropKeepsPresence(args: seq<string>)
    ensures OutputOf(Dropped(args)).present == OutputOf(args).present
  {
    DroppedFirstOutput(args);
  }

  /** Arguments that differ in instances of "--instrument" only agree on whether an output is named. */
  lemma InstrumentNeverMatters(a: seq<string>, b: seq<string>)
    requires Dropped(a) == Dropped(b)
    ensures OutputOf(a).present == OutputOf(b).present
  {
    DropKeepsPresence(a);
    DropKeepsPresence(b);
  }

  /** "--instrument" stands where the path of the first output argument is expected. */
  predicate InstrumentAsPath(args: seq<string>) {
    var n := FirstOutput(args);
    n + 1 < |args| && Separate(args[n]) && args[n + 1] == INSTRUMENT
  }

  /** Dropping also keeps the path, except exactly when "--instrument" was taken for it. */
  lemma DropKeepsPath(args: seq<string>)
    ensures OutputOf(Dropped(args)) == OutputOf(args) <==> !InstrumentAsPath(args)
  {
    var n := FirstOutput(args);
    DroppedFirstOutput(args);
    if n < |args| {
      FirstOutputMeaning(args);
      InstrumentNamesNoOutput();
      DroppedAt(args, n);
    }
  }

  /** "--instrument" taken for the path: the compiler is given the argument after it. */
  lemma InstrumentTakenForPath()
    ensures var args := ["-o", "--instrument", "a.out"];
      OutputOf(args) == OutputArgument(true, "--instrument") && OutputOf(Dropped(args)) == OutputArgument(true, "a.out")
  {
    var args := ["-o", INSTRUMENT, "a.out"];
    assert args[1..] == [INSTRUMENT, "a.out"] && args[1..][1..] == ["a.out"] && ["a.out"][1..] == [];
    assert |INSTRUMENT| == 12 && |args[0]| == 2 && |args[2]| == 5;
    assert Dropped(["a.out"]) == ["a.out"];
    assert Dropped(args[1..]) == ["a.out"];
    assert Dropped(args) == ["-o", "a.out"];
  }

  /** An argument that is kept, in its new place, and what follows it. */
  lemma DroppedAt(args: seq<string>, n: nat)
    requires n < |args| && args[n] != INSTRUMENT
    ensures var m := |Dropped(args[..n])|;
      && m < |Dropped(args)| && Dropped(args)[m] == args[n]
      && Dropped(args)[m + 1..] == Dropped(args[n + 1..])
      && (n + 1 < |args| && args[n + 1] != INSTRUMENT ==>
            m + 1 < |Dropped(args)| && Dropped(args)[m + 1] == args[n + 1])
      && (m + 1 < |Dropped(args)| ==> Dropped(args)[m + 1] != INSTRUMENT)
      && (n + 1 == |args| ==> m + 1 == |Dropped(args)|)
  {
    var head, tail := args[..n], args[n + 1..];
    assert args == head + ([args[n]] + tail);
    DroppedConcat(head, [args[n]] + tail);
    assert ([args[n]] + tail)[1..] == tail;
    var m := |Dropped(head)|;
    assert Dropped(args) == Dropped(head) + ([args[n]] + Dropped(tail));
    assert Dropped(args)[m + 1..] == Dropped(tail);
    if Dropped(tail) != [] {
      NoInstrumentLeft(tail);
      assert Dropped(args)[m + 1] == Dropped(tail)[0];
    }
  }

  lemma {:induction false} NoInstrumentLeft(args: seq<string>)
    ensures INSTRUMENT !in Dropped(args)
  {
    if args != [] {
      NoInstrumentLeft(args[1..]);
    }
  }

  /** What is added for a source names no output, so the check for a second one sees the
      user's arguments, and the source's path if that reads like an output. */
  lemma AddedArgumentsNameNoOutput(marks: SourceMarks, source: string, text: string, args: seq<string>)
    ensures OutputOf(args + Missing(marks, source, text, args) + [source]).present
      <==> OutputOf(args).present || NamesOutput(source)
  {
    var missing := Missing(marks, source, text, args);
    NoOutputIn(marks, source, text, args);
    FirstOutputConcat(args, missing);
    FirstOutputConcat(args + missing, [source]);
    assert [source][1..] == [];
  }

  lemma NoOutputIn(marks: SourceMarks, source: string, text: string, args: seq<string>)
    ensures FirstOutput(Missing(marks, source, text, args)) == |Missing(marks, source, text, args)|
  {
    AddedWords();
    var debug := ["-DDEBUG"];
    FirstOutputMeaning(LANGUAGE);
    FirstOutputMeaning(debug);
    FirstOutputConcat(LANGUAGE, debug);
    FirstOutputConcat(LANGUAGE, []);
    FirstOutputConcat([], debug);
  }

  lemma AddedWords()
    ensures !NamesOutput(LANGUAGE[0]) && !NamesOutput(LANGUAGE[1]) && !NamesOutput("-DDEBUG")
  {
    assert |LANGUAGE[0]| == 2 && LANGUAGE[0][1] == 'x' && |LANGUAGE[1]| == 3 && LANGUAGE[1][0] == 'c';
    Mismatch("-DDEBUG", "-o=", 0, 1);
    Mismatch("-DDEBUG", "--output=", 0, 1);
    Mismatch(LANGUAGE[1], "-o=", 0, 0);
    assert |"-DDEBUG"| == 7;
  }
}
