/** From the CronJob the injector patches to the command and patterns the agent uses. */
module EndToEnd {
  import opened Wrappers
  import opened JsonPointer
  import opened JsonPatch
  import opened CronJobs
  import opened Injection
  import opened InjectionTheorems
  import opened CommandLine
  import opened Patterns

  function KeyReference(t: Target): string {
    "$(" + t.envKey + ")"
  }

  function Original(t: Target): seq<string> {
    t.container.command + t.container.args
  }

  /** The container list of a decoded document. */
  function ContainersOf(doc: Json): seq<Container> {
    var cj := Decode(doc);
    if cj == None then [] else cj.value.pod.containers
  }

  lemma {:induction false} FlagText(key: string, url: string)
    ensures "--key=$(" + key + ")" == Assignment("key", "$(" + key + ")")
    ensures "--api-url=" + url == Assignment("api-url", url)
  {
    assert "--key=$(" == "--" + "key" + "=" + "$(";
    assert "--api-url=" == "--" + "api-url" + "=";
  }

  lemma {:induction false} ArgvForm(cfg: InjectorConfig, t: Target)
    ensures var bin := if t.prebaked then "crond-agent" else cfg.sharedMountPath + "/crond-agent";
            WrappedArgv(cfg, t)
            == [bin, "exec", Assignment("key", KeyReference(t)), Assignment("api-url", cfg.apiUrl)]
               + cfg.extraArgs + ["--"] + Original(t)
  {
    FlagText(t.envKey, cfg.apiUrl);
  }

  /** The container the patched document holds. */
  lemma {:induction false} PatchedContainer(raw: Json, cfg: InjectorConfig)
    requires Decide(raw).Wrapped?
    ensures var t := Decide(raw).target;
            && Shaped(raw, t)
            && t.index < |ContainersOf(Rewritten(raw, cfg, t))|
            && ContainersOf(Rewritten(raw, cfg, t))[t.index] == WrappedContainer(cfg, t)
  {
    var t, cj := Decide(raw).target, Decode(raw).value;
    RewrittenDecodes(raw, cfg);
    EntryReplaced(cj.pod, cfg, t);
  }

  lemma {:induction false} EntryReplaced(pod: Pod, cfg: InjectorConfig, t: Target)
    requires t.index < |pod.containers|
    ensures var containers := WrappedPod(pod, cfg, t).containers;
            |containers| == |pod.containers| && containers[t.index] == WrappedContainer(cfg, t)
  {
  }

  /** What the agent makes of the command list the injector wrote into the document. */
  lemma {:induction false} InvokesWrapped(raw: Json, cfg: InjectorConfig, durations: string -> Option<int>)
    requires Decide(raw).Wrapped?
    requires ExtraAreFlags(cfg, Decide(raw).target, durations)
    ensures var t := Decide(raw).target;
            && Shaped(raw, t)
            && t.index < |ContainersOf(Rewritten(raw, cfg, t))|
            && var container := ContainersOf(Rewritten(raw, cfg, t))[t.index];
               var flags := ParseFlags(cfg.extraArgs, Flags(KeyReference(t), cfg.apiUrl, 0, true), durations).flags;
               container.args == []
               && Invoke(container.command, durations)
                  == (if CommandArgs(Original(t)) == [] then None
                      else Some(Invocation("", flags, CommandArgs(Original(t)))))
  {
    PatchedContainer(raw, cfg);
    InvokesArgv(cfg, Decide(raw).target, durations);
  }

  /** The injector's extra arguments parse wholly as flags of `exec`. */
  predicate ExtraAreFlags(cfg: InjectorConfig, t: Target, durations: string -> Option<int>) {
    FlagsOnly(cfg.extraArgs, Flags(KeyReference(t), cfg.apiUrl, 0, true), durations)
  }

  lemma {:induction false} InvokesArgv(cfg: InjectorConfig, t: Target, durations: string -> Option<int>)
    requires ExtraAreFlags(cfg, t, durations)
    ensures var flags := ParseFlags(cfg.extraArgs, Flags(KeyReference(t), cfg.apiUrl, 0, true), durations).flags;
            Invoke(WrappedArgv(cfg, t), durations)
            == (if CommandArgs(Original(t)) == [] then None
                else Some(Invocation("", flags, CommandArgs(Original(t)))))
  {
    ArgvForm(cfg, t);
    var bin := if t.prebaked then "crond-agent" else cfg.sharedMountPath + "/crond-agent";
    InvokeWrapped(bin, KeyReference(t), cfg.apiUrl, cfg.extraArgs, Original(t), durations);
  }

  /** The agent runs the container's original command exactly when that command has no "--" of its own. */
  lemma {:induction false} RunsOriginalIff(raw: Json, cfg: InjectorConfig, durations: string -> Option<int>)
    requires Decide(raw).Wrapped?
    requires ExtraAreFlags(cfg, Decide(raw).target, durations)
    ensures var t := Decide(raw).target;
            && Shaped(raw, t)
            && t.index < |ContainersOf(Rewritten(raw, cfg, t))|
            && var i := Invoke(ContainersOf(Rewritten(raw, cfg, t))[t.index].command, durations);
               (i.Some? && i.value.command == Original(t)) <==> "--" !in Original(t)
  {
    var t := Decide(raw).target;
    InvokesWrapped(raw, cfg, durations);
    WrappedIsShaped(raw);
    CommandArgsIff(Original(t));
    assert Original(t) != [];
  }

  // ----- A smallest document that is wrapped -----

  function OptedIn(key: string): Json {
    Obj(map[ANN_INJECT := Str("true"), ANN_PING_KEY_ENV := Str(key)])
  }

  function OneContainer(command: seq<string>): Json {
    Obj(map["containers" := Arr([Obj(map["command" := Arr(Strings(command))])])])
  }

  /** Two annotations and one container with a command. */
  function SmallJob(key: string, command: seq<string>): Json {
    Obj(map["metadata" := Nest(["annotations"], OptedIn(key)),
            "spec" := Nest(POD[1..], OneContainer(command))])
  }

  lemma {:induction false} SmallJobDescends(key: string, command: seq<string>)
    ensures Descend(SmallJob(key, command), ANNOTATIONS) == Some(OptedIn(key))
    ensures Descend(SmallJob(key, command), POD) == Some(OneContainer(command))
  {
    assert ANNOTATIONS[1..] == ["annotations"];
    DescendNest(["annotations"], OptedIn(key));
    DescendNest(POD[1..], OneContainer(command));
  }

  lemma {:induction false} OneContainerDecodes(command: seq<string>)
    ensures DecodePod(OneContainer(command)) == Some(Pod([], [], [Container("", command, [], [], [])]))
  {
    var c := Obj(map["command" := Arr(Strings(command))]);
    StringsDecode(command);
    assert DecodeContainer(c) == Some(Container("", command, [], [], []));
    var r := Traverse([c], DecodeContainer);
    assert r.Some?;
    assert r.value == [Container("", command, [], [], [])];
    assert DecodeEach(Null, DecodeName) == Some([]);
  }

  lemma {:induction false} OptedInDecodes(key: string)
    ensures DecodeAnnotations(OptedIn(key)) == Some(map[ANN_INJECT := "true", ANN_PING_KEY_ENV := key])
  {
    TwoStringsDecode(ANN_INJECT, "true", ANN_PING_KEY_ENV, key);
  }

  lemma {:induction false} TwoStringsDecode(a: string, v: string, b: string, w: string)
    ensures DecodeAnnotations(Obj(map[a := Str(v), b := Str(w)])) == Some(map[a := v, b := w])
  {
    var fields := map[a := Str(v), b := Str(w)];
    assert forall k | k in fields :: DecodeString(fields[k]).Some?;
    assert DecodeAnnotations(Obj(fields)).value == map[a := v, b := w];
  }

  lemma {:induction false} SmallJobDecodes(key: string, command: seq<string>)
    ensures Decode(SmallJob(key, command))
         == Some(CronJob(map[ANN_INJECT := "true", ANN_PING_KEY_ENV := key],
                         Pod([], [], [Container("", command, [], [], [])])))
  {
    SmallJobDescends(key, command);
    OneContainerDecodes(command);
    OptedInDecodes(key);
  }

  lemma {:induction false} SmallKeys()
    ensures ANN_INJECT != ANN_PING_KEY_ENV && ANN_INJECTED != ANN_INJECT && ANN_INJECTED != ANN_PING_KEY_ENV
    ensures ANN_CONTAINER != ANN_INJECT && ANN_CONTAINER != ANN_PING_KEY_ENV
    ensures ANN_MODE != ANN_INJECT && ANN_MODE != ANN_PING_KEY_ENV
  {
    KeysDiffer();
    assert |ANN_INJECT| == 15 && |ANN_PING_KEY_ENV| == 21 && |ANN_CONTAINER| == 18 && |ANN_MODE| == 13;
  }

  lemma {:induction false} SmallAnnotations(cj: CronJob, key: string)
    requires cj.annotations == map[ANN_INJECT := "true", ANN_PING_KEY_ENV := key]
    ensures Annotation(cj, ANN_INJECT) == "true" && Annotation(cj, ANN_PING_KEY_ENV) == key
    ensures Annotation(cj, ANN_INJECTED) == Annotation(cj, ANN_CONTAINER) == Annotation(cj, ANN_MODE) == ""
  {
    SmallKeys();
  }

  lemma {:induction false} SmallDecision(cj: CronJob, c: Container)
    requires Annotation(cj, ANN_INJECT) == "true" && Annotation(cj, ANN_PING_KEY_ENV) != ""
    requires Annotation(cj, ANN_INJECTED) == Annotation(cj, ANN_CONTAINER) == Annotation(cj, ANN_MODE) == ""
    requires cj.pod.initNames == [] && cj.pod.containers == [c] && c.command != []
    ensures DecideOn(cj) == Wrapped(Target(0, c, Annotation(cj, ANN_PING_KEY_ENV), false))
  {
    assert |Annotation(cj, ANN_MODE)| == 0;
  }

  lemma {:induction false} SmallJobWrapped(key: string, command: seq<string>)
    requires key != "" && command != []
    ensures Decide(SmallJob(key, command)) == Wrapped(Target(0, Container("", command, [], [], []), key, false))
  {
    SmallJobDecodes(key, command);
    var cj := Decode(SmallJob(key, command)).value;
    SmallAnnotations(cj, key);
    SmallDecision(cj, Container("", command, [], [], []));
  }

  /** `git log -- notes.txt` loses everything up to its own "--". */
  lemma {:induction false} KeepsLastWord()
    ensures CommandArgs(["git", "log", "--", "notes.txt"]) == ["notes.txt"]
  {
    var args := ["git", "log", "--", "notes.txt"];
    assert args[0] != "--" && args[1] != "--" && args[2] == "--";
    assert AfterDashes(args, 2) == args[3..] == ["notes.txt"];
    assert AfterDashes(args, 1) == AfterDashes(args, 2);
  }

  /** A CronJob whose only container runs that command is wrapped, and the agent runs `notes.txt`. */
  lemma {:induction false} LosesPrefix(key: string, cfg: InjectorConfig, durations: string -> Option<int>)
    requires key != "" && FlagsOnly(cfg.extraArgs, Flags("$(" + key + ")", cfg.apiUrl, 0, true), durations)
    ensures var raw := SmallJob(key, ["git", "log", "--", "notes.txt"]);
            && Decide(raw).Wrapped? && Shaped(raw, Decide(raw).target)
            && var containers := ContainersOf(Rewritten(raw, cfg, Decide(raw).target));
               && |containers| > 0
               && var i := Invoke(containers[0].command, durations);
                  i.Some? && i.value.command == ["notes.txt"]
  {
    var command := ["git", "log", "--", "notes.txt"];
    SmallJobWrapped(key, command);
    var t := Decide(SmallJob(key, command)).target;
    assert Original(t) == command + [] == command;
    KeepsLastWord();
    InvokesWrapped(SmallJob(key, command), cfg, durations);
  }

  // ----- Patterns -----

  function EnvEntry(name: string, value: string): Json {
    Obj(map["name" := Str(name), "value" := Str(value)])
  }

  /** The last variable of the wrapped container carries the patterns, and the agent reads them back. */
  lemma {:induction false} PatternsReachAgent(raw: Json, cfg: InjectorConfig, configured: seq<string>)
    requires Decide(raw).Wrapped? && cfg.redactPatterns != []
    ensures var t, v := Decide(raw).target, Join(cfg.redactPatterns, '\n');
            && Shaped(raw, t)
            && t.index < |ContainersOf(Rewritten(raw, cfg, t))|
            && var env := ContainersOf(Rewritten(raw, cfg, t))[t.index].env;
               env != [] && env[|env| - 1] == EnvEntry("CROND_REDACT_PATTERNS", v)
    ensures AllClean(cfg.redactPatterns) ==>
              Applied(Join(cfg.redactPatterns, '\n'), configured) == cfg.redactPatterns
  {
    PatchedContainer(raw, cfg);
    EnvRoundTripIff(cfg.redactPatterns, configured);
    PatternsComeLast(cfg, Decide(raw).target);
  }

  lemma {:induction false} PatternsComeLast(cfg: InjectorConfig, t: Target)
    requires cfg.redactPatterns != []
    ensures var env := WrappedContainer(cfg, t).env;
            env != [] && env[|env| - 1] == EnvEntry("CROND_REDACT_PATTERNS", Join(cfg.redactPatterns, '\n'))
  {
    var privacy := PrivacyEnv(cfg);
    assert privacy[|privacy| - 1] == EnvEntry("CROND_REDACT_PATTERNS", Join(cfg.redactPatterns, '\n'));
    LastOfThree(t.container.env, [PingKeyEnv(cfg, t.envKey)], privacy);
  }

  lemma {:induction false} LastOfThree(a: seq<Json>, b: seq<Json>, c: seq<Json>)
    requires c != []
    ensures var all := a + (b + c); all != [] && all[|all| - 1] == c[|c| - 1]
  {
  }
}
