/** How the agent reads its argument list. */
module CommandLine {
  import opened Wrappers

  // ----- Global --config flag -----

  const CONFIG_PREFIX := "--config="

  predicate IsSubcommand(a: string) {
    a == "exec" || a == "ping" || a == "config" || a == "install" || a == "version" || a == "help"
  }

  predicate StopsScan(a: string) {
    IsSubcommand(a) || a == "--"
  }

  datatype Extracted = Extracted(path: string, args: seq<string>)

  /** The result of looking at `args[i..]`. */
  function ExtractFrom(args: seq<string>, i: nat): Extracted
    requires i <= |args|
    decreases |args| - i
  {
    if i == |args| || StopsScan(args[i]) then Extracted("", args)
    else if args[i] == "--config" && i + 1 < |args| then Extracted(args[i + 1], args[..i] + args[i + 2..])
    else if CONFIG_PREFIX <= args[i] then Extracted(args[i][|CONFIG_PREFIX|..], args[..i] + args[i + 1..])
    else ExtractFrom(args, i + 1)
  }

  method ExtractConfigFlag(args: seq<string>) returns (path: string, rest: seq<string>)
    ensures Extracted(path, rest) == ExtractFrom(args, 0)
  {
    var i := 0;
    while i < |args|
      invariant 0 <= i <= |args|
      invariant ExtractFrom(args, i) == ExtractFrom(args, 0)
    {
      var a := args[i];
      if StopsScan(a) {
        break;
      }
      if a == "--config" && i + 1 < |args| {
        rest := RemoveAt(args, i, i + 2);
        return args[i + 1], rest;
      }
      if CONFIG_PREFIX <= a {
        rest := RemoveAt(args, i, i + 1);
        return a[|CONFIG_PREFIX|..], rest;
      }
      i := i + 1;
    }
    return "", args;
  }

  method RemoveAt(args: seq<string>, start: nat, end: nat) returns (out: seq<string>)
    requires start <= end <= |args|
    ensures out == args[..start] + args[end..]
  {
    out := [];
    out := out + args[..start];
    out := out + args[end..];
  }

  predicate EndsWith(args: seq<string>, tail: seq<string>) {
    |tail| <= |args| && args[|args| - |tail|..] == tail
  }

  lemma {:induction false} RemovedBefore(args: seq<string>, i: nat, j: nat, stop: nat)
    requires i <= j <= stop <= |args|
    ensures EndsWith(args[..i] + args[j..], args[stop..])
  {
    var r := args[..i] + args[j..];
    assert r[|r| - (|args| - stop)..] == args[stop..];
  }

  /** Nothing from the first subcommand or "--" on is ever consumed, unless "--config" stands right before it. */
  lemma {:induction false} ScanStopsAtCommand(args: seq<string>, i: nat, stop: nat)
    requires i <= stop < |args| && StopsScan(args[stop])
    requires stop > 0 ==> args[stop - 1] != "--config"
    ensures EndsWith(ExtractFrom(args, i).args, args[stop..])
    decreases stop - i
  {
    if i == stop || StopsScan(args[i]) {
      assert args[|args| - |args[stop..]|..] == args[stop..];
    } else if args[i] == "--config" {
      RemovedBefore(args, i, i + 2, stop);
    } else if CONFIG_PREFIX <= args[i] {
      RemovedBefore(args, i, i + 1, stop);
    } else {
      ScanStopsAtCommand(args, i + 1, stop);
    }
  }

  /** Arguments the scan passes over. */
  predicate PassedOver(args: seq<string>) {
    forall i | 0 <= i < |args| :: !StopsScan(args[i]) && args[i] != "--config" && !(CONFIG_PREFIX <= args[i])
  }

  lemma {:induction false} ScanPassesOver(before: seq<string>, rest: seq<string>, i: nat)
    requires PassedOver(before) && i <= |before|
    ensures ExtractFrom(before + rest, i) == ExtractFrom(before + rest, |before|)
    decreases |before| - i
  {
    if i == |before| {
    } else {
      assert (before + rest)[i] == before[i];
      ScanPassesOver(before, rest, i + 1);
    }
  }

  /** "--config path" is taken out together with its value. */
  lemma {:induction false} FindsConfig(before: seq<string>, path: string, after: seq<string>)
    requires PassedOver(before)
    ensures ExtractFrom(before + (["--config", path] + after), 0) == Extracted(path, before + after)
  {
    var args := before + (["--config", path] + after);
    ScanPassesOver(before, ["--config", path] + after, 0);
    assert args[|before|] == "--config" && args[|before| + 1] == path;
    assert args[..|before|] == before && args[|before| + 2..] == after;
  }

  /** So is "--config=path". */
  lemma {:induction false} FindsJoinedConfig(before: seq<string>, path: string, after: seq<string>)
    requires PassedOver(before)
    ensures ExtractFrom(before + ([CONFIG_PREFIX + path] + after), 0) == Extracted(path, before + after)
  {
    var args := before + ([CONFIG_PREFIX + path] + after);
    ScanPassesOver(before, [CONFIG_PREFIX + path] + after, 0);
    PrefixedIsNoStop(path);
    assert args[|before|] == CONFIG_PREFIX + path;
    assert args[..|before|] == before && args[|before| + 1..] == after;
  }

  /** The scan stops at a subcommand or "--" and looks past anything else. */
  lemma {:induction false} ScanStopsIff(a: string, path: string)
    requires a != "--config" && !("--config=" <= a)
    ensures ExtractFrom([a, "--config", path], 0)
         == if a == "exec" || a == "ping" || a == "config" || a == "install" || a == "version" || a == "help" || a == "--"
            then Extracted("", [a, "--config", path]) else Extracted(path, [a])
  {
    var args := [a, "--config", path];
    if !StopsScan(a) {
      assert args == [a] + (["--config", path] + []);
      FindsConfig([a], path, []);
    }
  }

  lemma {:induction false} PrefixedIsNoStop(path: string)
    ensures var a := CONFIG_PREFIX + path;
            !StopsScan(a) && a != "--config" && CONFIG_PREFIX <= a && a[|CONFIG_PREFIX|..] == path
  {
    var a := CONFIG_PREFIX + path;
    assert a[0] == '-' && |a| >= 9;
  }

  /** Without either before the first stop, or with a last "--config" that has no value, nothing is taken. */
  lemma {:induction false} FindsNoConfig(before: seq<string>, rest: seq<string>)
    requires PassedOver(before)
    requires rest == [] || StopsScan(rest[0]) || rest == ["--config"]
    ensures ExtractFrom(before + rest, 0) == Extracted("", before + rest)
  {
    ScanPassesOver(before, rest, 0);
    assert rest != [] ==> (before + rest)[|before|] == rest[0];
    if rest == ["--config"] {
      assert !StopsScan("--config") && !(CONFIG_PREFIX <= "--config");
    }
  }

  // ----- Flags of `exec` -----

  datatype Flags = Flags(key: string, apiUrl: string, timeout: int, passthrough: bool)

  const DEFAULTS := Flags("", "", 0, true)

  /** `terminated` records that "--" was consumed. */
  datatype Parsed = ParseError | Stopped(flags: Flags, rest: seq<string>, terminated: bool)

  datatype FlagArg = FlagArg(name: string, value: Option<string>)

  /** Splits at the first "=" that is not the first character. */
  function SplitFlag(body: string): FlagArg
    requires body != []
  {
    var i := IndexOf(body, '=', 1);
    if i == |body| then FlagArg(body, None) else FlagArg(body[..i], Some(body[i + 1..]))
  }

  function IndexOf(s: string, c: char, from: nat): (i: nat)
    requires from <= |s|
    ensures from <= i <= |s|
    ensures i < |s| ==> s[i] == c
    ensures forall j | from <= j < i :: s[j] != c
    decreases |s| - from
  {
    if from == |s| || s[from] == c then from else IndexOf(s, c, from + 1)
  }

  function ParseBool(s: string): Option<bool> {
    if s == "1" || s == "t" || s == "T" || s == "true" || s == "TRUE" || s == "True" then Some(true)
    else if s == "0" || s == "f" || s == "F" || s == "false" || s == "FALSE" || s == "False" then Some(false)
    else None
  }

  predicate IsBoolFlag(name: string) {
    name == "passthrough-stdout"
  }

  /** None for an unknown flag or a value of the wrong form; `durations` is `time.ParseDuration`. */
  function SetFlag(f: Flags, name: string, value: string, durations: string -> Option<int>): Option<Flags> {
    if name == "key" then Some(f.(key := value))
    else if name == "api-url" then Some(f.(apiUrl := value))
    else if name == "timeout" then
      (if durations(value).Some? then Some(f.(timeout := durations(value).value)) else None)
    else if name == "passthrough-stdout" then
      (if ParseBool(value).Some? then Some(f.(passthrough := ParseBool(value).value)) else None)
    else None
  }

  /** `FlagSet.Parse`: flags up to the first non-flag, or through "--". */
  function ParseFlags(args: seq<string>, f: Flags, durations: string -> Option<int>): Parsed
    decreases |args|
  {
    if args == [] then Stopped(f, [], false)
    else if |args[0]| < 2 || args[0][0] != '-' then Stopped(f, args, false)
    else if args[0] == "--" then Stopped(f, args[1..], true)
    else
      var body := args[0][(if args[0][1] == '-' then 2 else 1)..];
      if body == [] || body[0] == '-' || body[0] == '=' then ParseError
      else
        var flag := SplitFlag(body);
        if flag.value.Some? || IsBoolFlag(flag.name) then
          var g := SetFlag(f, flag.name, if flag.value.Some? then flag.value.value else "true", durations);
          if g == None then ParseError else ParseFlags(args[1..], g.value, durations)
        else if |args| < 2 then ParseError
        else
          var g := SetFlag(f, flag.name, args[1], durations);
          if g == None then ParseError else ParseFlags(args[2..], g.value, durations)
  }

  /** Every argument is consumed as a flag or a flag's value. */
  predicate FlagsOnly(args: seq<string>, f: Flags, durations: string -> Option<int>) {
    var p := ParseFlags(args, f, durations);
    p.Stopped? && p.rest == [] && !p.terminated
  }

  lemma {:induction false} ParseFlagsAppend(args: seq<string>, tail: seq<string>, f: Flags, durations: string -> Option<int>)
    requires FlagsOnly(args, f, durations)
    ensures ParseFlags(args + tail, f, durations)
         == ParseFlags(tail, ParseFlags(args, f, durations).flags, durations)
    decreases |args|
  {
    if args == [] {
      assert args + tail == tail;
    } else {
      var body := args[0][(if args[0][1] == '-' then 2 else 1)..];
      var flag := SplitFlag(body);
      assert (args + tail)[1..] == args[1..] + tail;
      if flag.value.Some? || IsBoolFlag(flag.name) {
        var g := SetFlag(f, flag.name, if flag.value.Some? then flag.value.value else "true", durations);
        ParseFlagsAppend(args[1..], tail, g.value, durations);
      } else {
        var g := SetFlag(f, flag.name, args[1], durations);
        assert (args + tail)[2..] == args[2..] + tail;
        ParseFlagsAppend(args[2..], tail, g.value, durations);
      }
    }
  }

  function Assignment(name: string, value: string): string {
    "--" + name + "=" + value
  }

  lemma {:induction false} SplitsAtEquals(name: string, value: string)
    requires name != [] && '=' !in name
    ensures SplitFlag(name + "=" + value) == FlagArg(name, Some(value))
  {
    var body := name + "=" + value;
    assert body[|name|] == '=';
    assert forall j | 1 <= j < |name| :: body[j] == name[j];
    assert IndexOf(body, '=', 1) == |name|;
    assert body[..|name|] == name && body[|name| + 1..] == value;
  }

  /** What comes of setting one flag and going on. */
  function SetAndParse(f: Flags, name: string, value: string, tail: seq<string>, durations: string -> Option<int>): Parsed {
    var g := SetFlag(f, name, value, durations);
    if g == None then ParseError else ParseFlags(tail, g.value, durations)
  }

  /** "--name=value" sets the flag, whatever the value contains. */
  lemma {:induction false} ParseAssignment(name: string, value: string, tail: seq<string>, f: Flags, durations: string -> Option<int>)
    requires name != [] && '=' !in name && name[0] != '-'
    ensures ParseFlags([Assignment(name, value)] + tail, f, durations) == SetAndParse(f, name, value, tail, durations)
  {
    var arg := Assignment(name, value);
    assert arg[2..] == name + "=" + value;
    SplitsAtEquals(name, value);
    assert ([arg] + tail)[1..] == tail;
    assert arg != "--";
  }

  lemma {:induction false} ParseOneDash(name: string, value: string, tail: seq<string>, f: Flags, durations: string -> Option<int>)
    requires name != [] && '=' !in name && name[0] != '-'
    ensures ParseFlags(["-" + name + "=" + value] + tail, f, durations) == SetAndParse(f, name, value, tail, durations)
  {
    var arg := "-" + name + "=" + value;
    assert arg[1..] == name + "=" + value;
    assert arg[1] == name[0];
    SplitsAtEquals(name, value);
    assert ([arg] + tail)[1..] == tail;
  }

  lemma {:induction false} ParseSeparate(dashes: string, name: string, value: string, tail: seq<string>, f: Flags,
                                         durations: string -> Option<int>)
    requires dashes == "-" || dashes == "--"
    requires name != [] && '=' !in name && name[0] != '-' && name != "passthrough-stdout"
    ensures ParseFlags([dashes + name, value] + tail, f, durations) == SetAndParse(f, name, value, tail, durations)
  {
    var arg := dashes + name;
    var args := [arg, value] + tail;
    assert arg[1] == if dashes == "-" then name[0] else '-';
    assert arg[(if arg[1] == '-' then 2 else 1)..] == name;
    assert forall j | 1 <= j < |name| :: name[j] != '=';
    assert IndexOf(name, '=', 1) == |name|;
    assert SplitFlag(name) == FlagArg(name, None);
    assert args[0] == arg && args[1] == value && args[2..] == tail;
    assert arg[|dashes|] == name[0];
  }

  /** One dash or two, joined or as two arguments: a flag with a value is read alike. */
  lemma {:induction false} SpellingsAgree(name: string, value: string, tail: seq<string>, f: Flags, durations: string -> Option<int>)
    requires name != [] && '=' !in name && name[0] != '-' && name != "passthrough-stdout"
    ensures var p := ParseFlags([Assignment(name, value)] + tail, f, durations);
            && ParseFlags(["-" + name + "=" + value] + tail, f, durations) == p
            && ParseFlags(["--" + name, value] + tail, f, durations) == p
            && ParseFlags(["-" + name, value] + tail, f, durations) == p
  {
    ParseAssignment(name, value, tail, f, durations);
    ParseOneDash(name, value, tail, f, durations);
    ParseSeparate("--", name, value, tail, f, durations);
    ParseSeparate("-", name, value, tail, f, durations);
  }

  /** The flags of `exec`, each setting its own field; anything else is an error. */
  lemma {:induction false} ExecFlags(name: string, v: string, tail: seq<string>, f: Flags, durations: string -> Option<int>)
    requires name != [] && '=' !in name && name[0] != '-'
    ensures var p := ParseFlags([Assignment(name, v)] + tail, f, durations);
            && (name == "key" ==> p == ParseFlags(tail, Flags(v, f.apiUrl, f.timeout, f.passthrough), durations))
            && (name == "api-url" ==> p == ParseFlags(tail, Flags(f.key, v, f.timeout, f.passthrough), durations))
            && (name == "timeout" ==>
                  p == if durations(v) == None then ParseError
                       else ParseFlags(tail, Flags(f.key, f.apiUrl, durations(v).value, f.passthrough), durations))
            && (name == "passthrough-stdout" ==>
                  p == if ParseBool(v) == None then ParseError
                       else ParseFlags(tail, Flags(f.key, f.apiUrl, f.timeout, ParseBool(v).value), durations))
            && (name != "key" && name != "api-url" && name != "timeout" && name != "passthrough-stdout" ==> p == ParseError)
  {
    ParseAssignment(name, v, tail, f, durations);
  }

  /** The boolean flag needs no value. */
  lemma {:induction false} BareFlagIsTrue(tail: seq<string>, f: Flags, durations: string -> Option<int>)
    ensures ParseFlags(["--" + "passthrough-stdout"] + tail, f, durations)
         == ParseFlags(tail, Flags(f.key, f.apiUrl, f.timeout, true), durations)
  {
    var name := "passthrough-stdout";
    var args := ["--" + name] + tail;
    assert args[0][2..] == name && args[1..] == tail;
    NoEquals(name);
  }

  lemma {:induction false} NoEquals(name: string)
    requires name != [] && '=' !in name
    ensures SplitFlag(name) == FlagArg(name, None)
  {
    assert IndexOf(name, '=', 1) == |name|;
  }

  /** Flags end at "--", which is dropped, or at the first word that is no flag, which is kept. */
  lemma {:induction false} FlagsEnd(a: string, rest: seq<string>, f: Flags, durations: string -> Option<int>)
    ensures a == "" || a[0] != '-' || a == "-" ==>
              ParseFlags([a] + rest, f, durations) == Stopped(f, [a] + rest, false)
    ensures a == "--" ==> ParseFlags([a] + rest, f, durations) == Stopped(f, rest, true)
    ensures ParseFlags([], f, durations) == Stopped(f, [], false)
  {
    assert ([a] + rest)[1..] == rest;
  }

  // ----- The command to run -----

  function AfterDashes(args: seq<string>, i: nat): seq<string>
    requires i <= |args|
    decreases |args| - i
  {
    if i == |args| then args else if args[i] == "--" then args[i + 1..] else AfterDashes(args, i + 1)
  }

  function CommandArgs(args: seq<string>): seq<string> {
    AfterDashes(args, 0)
  }

  method FindCommandArgs(args: seq<string>) returns (r: seq<string>)
    ensures r == CommandArgs(args)
  {
    for i := 0 to |args|
      invariant AfterDashes(args, i) == AfterDashes(args, 0)
    {
      if args[i] == "--" {
        return args[i + 1..];
      }
    }
    return args;
  }

  lemma {:induction false} AfterDashesMeans(args: seq<string>, i: nat)
    requires i <= |args| && "--" !in args[..i]
    ensures "--" !in args ==> AfterDashes(args, i) == args
    ensures "--" in args ==> exists k :: 0 <= k < |args| && args[k] == "--" && "--" !in args[..k]
                                          && AfterDashes(args, i) == args[k + 1..]
    decreases |args| - i
  {
    if i == |args| {
      assert args[..i] == args;
    } else if args[i] != "--" {
      assert args[..i + 1] == args[..i] + [args[i]];
      AfterDashesMeans(args, i + 1);
    }
  }

  /** The arguments come back whole exactly when none of them is "--". */
  lemma {:induction false} CommandArgsIff(args: seq<string>)
    ensures CommandArgs(args) == args <==> "--" !in args
  {
    AfterDashesMeans(args, 0);
  }

  datatype Invocation = Invocation(config: string, flags: Flags, command: seq<string>)

  /** `main` then `runExec`, up to the command; None when the agent would do something else or exit. */
  function Invoke(argv: seq<string>, durations: string -> Option<int>): Option<Invocation> {
    if argv == [] then None
    else
      var e := ExtractFrom(argv[1..], 0);
      if e.args == [] || e.args[0] != "exec" then None
      else
        var p := ParseFlags(e.args[1..], DEFAULTS, durations);
        if p == ParseError then None
        else
          var command := CommandArgs(p.rest);
          if command == [] then None else Some(Invocation(e.path, p.flags, command))
  }

  /** An argv of the injector's form, read by the agent. */
  lemma {:induction false} InvokeWrapped(bin: string, key: string, url: string, extra: seq<string>, command: seq<string>,
                      durations: string -> Option<int>)
    requires FlagsOnly(extra, Flags(key, url, 0, true), durations)
    ensures var argv := [bin, "exec", Assignment("key", key), Assignment("api-url", url)] + extra + ["--"] + command;
            var flags := ParseFlags(extra, Flags(key, url, 0, true), durations).flags;
            Invoke(argv, durations)
            == if CommandArgs(command) == [] then None else Some(Invocation("", flags, CommandArgs(command)))
  {
    var k, u := Assignment("key", key), Assignment("api-url", url);
    var argv := [bin, "exec", k, u] + extra + ["--"] + command;
    assert argv[1..][0] == "exec";
    assert argv[1..][1..] == [k] + ([u] + (extra + (["--"] + command)));
    assert ExtractFrom(argv[1..], 0) == Extracted("", argv[1..]);
    ParseInjected(key, url, extra, command, durations);
  }

  lemma {:induction false} ParseInjected(key: string, url: string, extra: seq<string>, command: seq<string>,
                                         durations: string -> Option<int>)
    requires FlagsOnly(extra, Flags(key, url, 0, true), durations)
    ensures ParseFlags([Assignment("key", key)] + ([Assignment("api-url", url)] + (extra + (["--"] + command))),
                       DEFAULTS, durations)
         == Stopped(ParseFlags(extra, Flags(key, url, 0, true), durations).flags, command, true)
  {
    var rest := extra + (["--"] + command);
    ParseAssignment("key", key, [Assignment("api-url", url)] + rest, DEFAULTS, durations);
    ParseAssignment("api-url", url, rest, DEFAULTS.(key := key), durations);
    ParseFlagsAppend(extra, ["--"] + command, Flags(key, url, 0, true), durations);
    assert (["--"] + command)[1..] == command;
  }

  /** A global flag in front changes the configuration and nothing else. */
  lemma {:induction false} ConfigThenExec(bin: string, path: string, rest: seq<string>, durations: string -> Option<int>)
    ensures var i := Invoke([bin] + (["exec"] + rest), durations);
            Invoke([bin] + (["--config", path] + (["exec"] + rest)), durations)
            == if i == None then None else Some(i.value.(config := path))
  {
    var tail := ["exec"] + rest;
    var args := ["--config", path] + tail;
    FindsConfig([], path, tail);
    assert [] + args == args && [] + tail == tail;
    FindsNoConfig([], tail);
    assert ([bin] + args)[1..] == args && ([bin] + tail)[1..] == tail;
  }

  /** The first argument is not taken by a scan that has passed it. */
  lemma {:induction false} FirstStays(args: seq<string>, i: nat)
    requires 0 < i <= |args|
    ensures var e := ExtractFrom(args, i); e.args != [] && e.args[0] == args[0]
    decreases |args| - i
  {
    if i == |args| || StopsScan(args[i]) {
    } else if args[i] == "--config" && i + 1 < |args| {
    } else if CONFIG_PREFIX <= args[i] {
    } else {
      FirstStays(args, i + 1);
    }
  }

  /** Nothing but "exec" runs a command. */
  lemma {:induction false} OnlyExecRuns(bin: string, a: string, rest: seq<string>, durations: string -> Option<int>)
    requires a != "exec" && a != "--config" && !("--config=" <= a)
    ensures Invoke([bin] + ([a] + rest), durations) == None
  {
    var args := [a] + rest;
    assert ([bin] + args)[1..] == args;
    assert args[0] == a;
    if !StopsScan(a) {
      FirstStays(args, 1);
    }
  }
}
