/** Deciding whether and how to wrap a CronJob, and building the JSON Patch. */
module Injection {
  import opened Wrappers
  import opened JsonPointer
  import opened JsonPatch
  import opened CronJobs

  const ANN_INJECT := "crond.io/inject"
  const ANN_PING_KEY_ENV := "crond.io/ping-key-env"
  const ANN_CONTAINER := "crond.io/container"
  const ANN_MODE := "crond.io/mode"
  const ANN_INJECTED := "crond.io/injected"
  const INSTALLER := "crond-agent-installer"
  const ANNOTATIONS_PATH := "/metadata" + "/annotations" + "/"
  const POD_PATH := "/spec" + "/jobTemplate" + "/spec" + "/template" + "/spec"

  datatype InjectorConfig = InjectorConfig(
    agentImage: string,
    imagePullPolicy: string,
    apiUrl: string,
    extraArgs: seq<string>,
    sharedVolumeName: string,
    sharedMountPath: string,
    pingKeysSecret: string,
    captureOutput: bool,
    redactPatterns: seq<string>,
    containerSecurityContext: Option<Json>,
    initResources: Option<Json>)

  datatype Warning = PingKeyEnvMissing | NoContainer | NoCommand(container: string)

  /** An empty patch is the source's nil patch. */
  datatype Result = DecodeError | Result(patch: seq<Op>, warning: Option<Warning>)

  /** What is to be wrapped, once the decision to wrap is taken. */
  datatype Target = Target(index: nat, container: Container, envKey: string, prebaked: bool)

  datatype Decision = Malformed | Untouched | Skipped(warning: Warning) | Wrapped(target: Target)

  function Annotation(cj: CronJob, name: string): string {
    if name in cj.annotations then cj.annotations[name] else ""
  }

  /** The container the annotation names, or the first one; -1 when there is none. */
  function TargetIndex(containers: seq<Container>, name: string): (r: int)
    ensures -1 <= r < |containers|
    ensures name == "" ==> r == (if containers == [] then -1 else 0)
    ensures name != "" && r >= 0 ==>
              containers[r].name == name && forall i | 0 <= i < r :: containers[i].name != name
    ensures name != "" && r < 0 ==> forall i | 0 <= i < |containers| :: containers[i].name != name
  {
    if containers == [] then -1
    else if name == "" || containers[0].name == name then 0
    else
      var r := TargetIndex(containers[1..], name);
      if r < 0 then -1 else r + 1
  }

  function Decide(raw: Json): Decision {
    var cj := Decode(raw);
    if cj == None then Malformed else DecideOn(cj.value)
  }

  function DecideOn(cj: CronJob): Decision {
    if Annotation(cj, ANN_INJECT) != "true" then Untouched
    else if Annotation(cj, ANN_INJECTED) != "" then Untouched
    else if INSTALLER in cj.pod.initNames then Untouched
    else if Annotation(cj, ANN_PING_KEY_ENV) == "" then Skipped(PingKeyEnvMissing)
    else
      var containers := cj.pod.containers;
      var i := TargetIndex(containers, Annotation(cj, ANN_CONTAINER));
      if i < 0 then Skipped(NoContainer)
      else if containers[i].command == [] then Skipped(NoCommand(containers[i].name))
      else Wrapped(Target(i, containers[i], Annotation(cj, ANN_PING_KEY_ENV),
                          Annotation(cj, ANN_MODE) == "prebaked"))
  }

  // ----- The injected values -----

  function Volume(cfg: InjectorConfig): Json {
    Obj(map["name" := Str(cfg.sharedVolumeName), "emptyDir" := Obj(map[])])
  }

  function Mount(cfg: InjectorConfig): Json {
    Obj(map["name" := Str(cfg.sharedVolumeName), "mountPath" := Str(cfg.sharedMountPath)])
  }

  function InitContainer(cfg: InjectorConfig): Json {
    var base := map[
      "name" := Str(INSTALLER),
      "image" := Str(cfg.agentImage),
      "imagePullPolicy" := Str(cfg.imagePullPolicy),
      "command" := Arr([Str("/crond-agent")]),
      "args" := Arr([Str("install"), Str("--target=" + cfg.sharedMountPath + "/crond-agent")]),
      "volumeMounts" := Arr([Mount(cfg)])];
    var secured := if cfg.containerSecurityContext.Some?
                   then base["securityContext" := cfg.containerSecurityContext.value] else base;
    Obj(if cfg.initResources.Some? then secured["resources" := cfg.initResources.value] else secured)
  }

  function PingKeyEnv(cfg: InjectorConfig, envKey: string): Json {
    var ref := Obj(map["name" := Str(cfg.pingKeysSecret), "key" := Str(envKey)]);
    Obj(map["name" := Str(envKey), "valueFrom" := Obj(map["secretKeyRef" := ref])])
  }

  /** Only what differs from the agent's defaults. */
  function PrivacyEnv(cfg: InjectorConfig): seq<Json> {
    (if cfg.captureOutput then []
     else [Obj(map["name" := Str("CROND_CAPTURE_OUTPUT"), "value" := Str("false")])])
    + (if cfg.redactPatterns == [] then []
       else [Obj(map["name" := Str("CROND_REDACT_PATTERNS"), "value" := Str(Join(cfg.redactPatterns, '\n'))])])
  }

  function InjectedEnv(cfg: InjectorConfig, t: Target): seq<Json> {
    [PingKeyEnv(cfg, t.envKey)] + PrivacyEnv(cfg)
  }

  function WrappedArgv(cfg: InjectorConfig, t: Target): seq<string> {
    [if t.prebaked then "crond-agent" else cfg.sharedMountPath + "/crond-agent", "exec",
     "--key=$(" + t.envKey + ")", "--api-url=" + cfg.apiUrl]
    + cfg.extraArgs + ["--"] + t.container.command + t.container.args
  }

  // ----- The direct rewrite that the patch has to amount to -----

  function RewriteContainer(c: Json, cfg: InjectorConfig, t: Target): Json
    requires c.Obj?
  {
    var mounted := if t.prebaked then c.fields
                   else c.fields["volumeMounts" := Arr(t.container.mounts + [Mount(cfg)])];
    var commanded := mounted["command" := Arr(Strings(WrappedArgv(cfg, t)))];
    var folded := if t.container.args == [] then commanded else commanded - {"args"};
    Obj(folded["env" := Arr(t.container.env + InjectedEnv(cfg, t))])
  }

  function RewritePod(pod: Json, cfg: InjectorConfig, t: Target): Json
    requires pod.Obj? && t.index < |Items(pod, "containers")| && Items(pod, "containers")[t.index].Obj?
  {
    var containers := Items(pod, "containers");
    var installed := if t.prebaked then pod.fields
                     else pod.fields["volumes" := Arr(Items(pod, "volumes") + [Volume(cfg)])]
                                    ["initContainers" := Arr(Items(pod, "initContainers") + [InitContainer(cfg)])];
    Obj(installed["containers" := Arr(containers[t.index := RewriteContainer(containers[t.index], cfg, t)])])
  }

  /** The tree has the shape that a decision to wrap relies on. */
  ghost predicate Shaped(raw: Json, t: Target) {
    && Get(raw, ANNOTATIONS).Some? && Get(raw, ANNOTATIONS).value.Obj?
    && Get(raw, POD).Some? && Get(raw, POD).value.Obj?
    && var containers := Items(Get(raw, POD).value, "containers");
       t.index < |containers| && DecodeContainer(containers[t.index]) == Some(t.container)
       && containers[t.index].Obj? && t.container.command != []
  }

  lemma {:induction false} AnnotationsOutsidePod(raw: Json, v: Json)
    requires Get(raw, POD).Some?
    ensures Get(Put(raw, POD, v), ANNOTATIONS) == Get(raw, ANNOTATIONS)
  {
    PutFrame(raw, POD, v, ANNOTATIONS);
  }

  ghost function Rewritten(raw: Json, cfg: InjectorConfig, t: Target): Json
    requires Shaped(raw, t)
  {
    var wrapped := Put(raw, POD, RewritePod(Get(raw, POD).value, cfg, t));
    AnnotationsOutsidePod(raw, RewritePod(Get(raw, POD).value, cfg, t));
    var annotations := Get(raw, ANNOTATIONS).value.fields;
    Put(wrapped, ANNOTATIONS, Obj(annotations[ANN_INJECTED := Str(cfg.agentImage)]))
  }

  lemma {:induction false} WrappedIsShaped(raw: Json)
    requires Decide(raw).Wrapped?
    ensures Shaped(raw, Decide(raw).target)
  {
    var t := Decide(raw).target;
    var ann, pod := Descend(raw, ANNOTATIONS).value, Descend(raw, POD).value;
    assert ann.Obj?;
    DescendIsGet(raw, ANNOTATIONS);
    assert pod.Obj?;
    DescendIsGet(raw, POD);
    var containers := Items(pod, "containers");
    assert DecodeContainer(containers[t.index]) == Some(t.container);
  }

  // ----- The operations -----

  function AddToArray(path: string, empty: bool, value: Json): Op {
    if empty then Op("add", path, Some(Arr([value]))) else Op("add", path + "/-", Some(value))
  }

  function ContainerSub(index: nat, field: string): string {
    POD_PATH + "/containers/" + Itoa(index) + "/" + field
  }

  // The edits, in order, that the operations stand for.

  function SetupEdits(noVolumes: bool, noInits: bool, cfg: InjectorConfig, t: Target): seq<At> {
    if t.prebaked then []
    else [AppendEdit("volumes", noVolumes, Volume(cfg)), AppendEdit("initContainers", noInits, InitContainer(cfg))]
  }

  function MountEdits(cfg: InjectorConfig, t: Target): seq<At> {
    if t.prebaked then [] else [AppendEdit("volumeMounts", t.container.mounts == [], Mount(cfg))]
  }

  function CommandEdits(cfg: InjectorConfig, t: Target): seq<At> {
    [At(["command"], Replace(Arr(Strings(WrappedArgv(cfg, t)))))]
    + (if t.container.args == [] then [] else [At(["args"], Remove)])
  }

  function EnvEdits(cfg: InjectorConfig, t: Target): seq<At> {
    if t.container.env == [] then [At(["env"], Add(Arr(InjectedEnv(cfg, t))))]
    else AppendEach("env", InjectedEnv(cfg, t))
  }

  function ContainerEdits(cfg: InjectorConfig, t: Target): seq<At> {
    MountEdits(cfg, t) + CommandEdits(cfg, t) + EnvEdits(cfg, t)
  }

  function PodEdits(pod: Json, cfg: InjectorConfig, t: Target): seq<At> {
    SetupEdits(Items(pod, "volumes") == [], Items(pod, "initContainers") == [], cfg, t)
    + Under(["containers", Itoa(t.index)], ContainerEdits(cfg, t))
  }

  function PatchEdits(raw: Json, cfg: InjectorConfig, t: Target): seq<At>
    requires Get(raw, POD).Some?
  {
    Under(POD, PodEdits(Get(raw, POD).value, cfg, t))
    + [At(ANNOTATIONS + [ANN_INJECTED], Add(Str(cfg.agentImage)))]
  }

  // ----- What the edits do -----

  // The container after each group of edits.

  function Mounted(c: Json, cfg: InjectorConfig, t: Target): Json
    requires c.Obj?
  {
    Obj(if t.prebaked then c.fields else c.fields["volumeMounts" := Arr(t.container.mounts + [Mount(cfg)])])
  }

  function Commanded(c: Json, cfg: InjectorConfig, t: Target): Json
    requires c.Obj?
  {
    var commanded := c.fields["command" := Arr(Strings(WrappedArgv(cfg, t)))];
    Obj(if t.container.args == [] then commanded else commanded - {"args"})
  }

  function Envd(c: Json, cfg: InjectorConfig, t: Target): Json
    requires c.Obj?
  {
    Obj(c.fields["env" := Arr(t.container.env + InjectedEnv(cfg, t))])
  }

  lemma {:induction false} MountAdded(c: Json, cfg: InjectorConfig, t: Target)
    requires c.Obj? && DecodeContainer(c) == Some(t.container)
    ensures ApplyEdits(c, MountEdits(cfg, t)) == Some(Mounted(c, cfg, t))
  {
    if !t.prebaked {
      ListIsItems(c, "volumeMounts");
      AppendToField(c, "volumeMounts", Mount(cfg));
      ApplyOne(c, AppendEdit("volumeMounts", t.container.mounts == [], Mount(cfg)));
    }
  }

  lemma {:induction false} EnvAdded(c: Json, cfg: InjectorConfig, t: Target)
    requires c.Obj? && Items(c, "env") == t.container.env
    ensures ApplyEdits(c, EnvEdits(cfg, t)) == Some(Envd(c, cfg, t))
  {
    var envs := InjectedEnv(cfg, t);
    if t.container.env == [] {
      assert t.container.env + envs == envs;
      ApplyOne(c, At(["env"], Add(Arr(envs))));
    } else {
      AppendAllToField(c, "env", envs);
    }
  }

  lemma {:induction false} CommandReplaced(c: Json, cfg: InjectorConfig, t: Target)
    requires c.Obj? && "command" in c.fields
    requires t.container.args != [] ==> "args" in c.fields
    ensures ApplyEdits(c, CommandEdits(cfg, t)) == Some(Commanded(c, cfg, t))
  {
    var first := At(["command"], Replace(Arr(Strings(WrappedArgv(cfg, t)))));
    var commanded := Obj(c.fields["command" := Arr(Strings(WrappedArgv(cfg, t)))]);
    var rest := if t.container.args == [] then [] else [At(["args"], Remove)];
    ApplyOne(c, first);
    ApplyEditsAppend(c, [first], rest);
    ApplyOne(commanded, At(["args"], Remove));
  }

  /** The fields the later edits look at are still the original ones. */
  lemma {:induction false} FieldsSurvive(c: Json, cfg: InjectorConfig, t: Target)
    requires c.Obj? && DecodeContainer(c) == Some(t.container) && t.container.command != []
    ensures var c1 := Mounted(c, cfg, t);
            && "command" in c1.fields && (t.container.args != [] ==> "args" in c1.fields)
            && Items(Commanded(c1, cfg, t), "env") == t.container.env
  {
    ListIsItems(c, "env");
  }

  lemma {:induction false} ContainerRewritten(c: Json, cfg: InjectorConfig, t: Target)
    requires c.Obj? && DecodeContainer(c) == Some(t.container) && t.container.command != []
    ensures ApplyEdits(c, ContainerEdits(cfg, t)) == Some(RewriteContainer(c, cfg, t))
  {
    var c1 := Mounted(c, cfg, t);
    var c2 := Commanded(c1, cfg, t);
    FieldsSurvive(c, cfg, t);
    MountAdded(c, cfg, t);
    CommandReplaced(c1, cfg, t);
    EnvAdded(c2, cfg, t);
    ThreeGroups(c, MountEdits(cfg, t), c1, CommandEdits(cfg, t), c2, EnvEdits(cfg, t), Envd(c2, cfg, t));
  }

  lemma {:induction false} ThreeGroups(c: Json, a: seq<At>, c1: Json, b: seq<At>, c2: Json, d: seq<At>, c3: Json)
    requires ApplyEdits(c, a) == Some(c1) && ApplyEdits(c1, b) == Some(c2) && ApplyEdits(c2, d) == Some(c3)
    ensures ApplyEdits(c, a + b + d) == Some(c3)
  {
    ApplyEditsAppend(c, a, b);
    ApplyEditsAppend(c, a + b, d);
  }

  lemma {:induction false} ContainerEditsBelow(cfg: InjectorConfig, t: Target)
    ensures Below(ContainerEdits(cfg, t))
  {
  }

  function Installed(pod: Json, cfg: InjectorConfig, t: Target): Json
    requires pod.Obj?
  {
    Obj(if t.prebaked then pod.fields
        else pod.fields["volumes" := Arr(Items(pod, "volumes") + [Volume(cfg)])]
                       ["initContainers" := Arr(Items(pod, "initContainers") + [InitContainer(cfg)])])
  }

  lemma {:induction false} PodInstalled(pod: Json, cfg: InjectorConfig, t: Target)
    requires pod.Obj?
    ensures ApplyEdits(pod, SetupEdits(Items(pod, "volumes") == [], Items(pod, "initContainers") == [], cfg, t))
         == Some(Installed(pod, cfg, t))
  {
    if !t.prebaked {
      TwoAppends(pod, "volumes", Volume(cfg), "initContainers", InitContainer(cfg));
    }
  }

  lemma {:induction false} TwoAppends(doc: Json, f: string, v: Json, g: string, w: Json)
    requires doc.Obj? && f != g
    ensures ApplyEdits(doc, [AppendEdit(f, Items(doc, f) == [], v), AppendEdit(g, Items(doc, g) == [], w)])
         == Some(Obj(doc.fields[f := Arr(Items(doc, f) + [v])][g := Arr(Items(doc, g) + [w])]))
  {
    var a, b := AppendEdit(f, Items(doc, f) == [], v), AppendEdit(g, Items(doc, g) == [], w);
    var d := Obj(doc.fields[f := Arr(Items(doc, f) + [v])]);
    AppendToField(doc, f, v);
    AppendToField(d, g, w);
    assert Items(d, g) == Items(doc, g);
    assert [a, b] == [a] + [b];
    ApplyOne(doc, a);
    ApplyOne(d, b);
    ApplyEditsAppend(doc, [a], [b]);
  }

  lemma {:induction false} PodRewritten(pod: Json, cfg: InjectorConfig, t: Target)
    requires pod.Obj? && t.index < |Items(pod, "containers")|
    requires var c := Items(pod, "containers")[t.index];
             c.Obj? && DecodeContainer(c) == Some(t.container) && t.container.command != []
    ensures ApplyEdits(pod, PodEdits(pod, cfg, t)) == Some(RewritePod(pod, cfg, t))
  {
    var p1 := Installed(pod, cfg, t);
    var path := ["containers", Itoa(t.index)];
    var c := Items(pod, "containers")[t.index];
    PodInstalled(pod, cfg, t);
    assert Items(p1, "containers") == Items(pod, "containers");
    ContainerAt(p1, t.index, c);
    ContainerEditsBelow(cfg, t);
    Lift(p1, path, ContainerEdits(cfg, t));
    ContainerRewritten(c, cfg, t);
    ContainerPut(p1, t.index, RewriteContainer(c, cfg, t));
    ApplyEditsAppend(pod, SetupEdits(Items(pod, "volumes") == [], Items(pod, "initContainers") == [], cfg, t),
                     Under(path, ContainerEdits(cfg, t)));
  }

  lemma {:induction false} ContainerAt(pod: Json, index: nat, c: Json)
    requires index < |Items(pod, "containers")| && Items(pod, "containers")[index] == c
    ensures Get(pod, ["containers", Itoa(index)]) == Some(c)
  {
    ItoaParses(index);
    var path := ["containers", Itoa(index)];
    assert path[1..] == [Itoa(index)] && path[1..][1..] == [];
    assert Child(pod.fields["containers"], Itoa(index)) == Some(c);
    assert Get(pod.fields["containers"], [Itoa(index)]) == Some(c);
  }

  lemma {:induction false} ContainerPut(pod: Json, index: nat, c: Json)
    requires index < |Items(pod, "containers")| && Get(pod, ["containers", Itoa(index)]).Some?
    ensures Put(pod, ["containers", Itoa(index)], c)
         == Obj(pod.fields["containers" := Arr(Items(pod, "containers")[index := c])])
  {
    ItoaParses(index);
    var path := ["containers", Itoa(index)];
    assert path[1..] == [Itoa(index)] && path[1..][1..] == [];
    assert Put(pod.fields["containers"], [Itoa(index)], c) == Arr(Items(pod, "containers")[index := c]);
  }

  lemma {:induction false} MarkAdded(doc: Json, cfg: InjectorConfig)
    requires Get(doc, ANNOTATIONS).Some? && Get(doc, ANNOTATIONS).value.Obj?
    ensures ApplyEdits(doc, [At(ANNOTATIONS + [ANN_INJECTED], Add(Str(cfg.agentImage)))])
         == Some(Put(doc, ANNOTATIONS, Obj(Get(doc, ANNOTATIONS).value.fields[ANN_INJECTED := Str(cfg.agentImage)])))
  {
    var mark := At([ANN_INJECTED], Add(Str(cfg.agentImage)));
    Lift(doc, ANNOTATIONS, [mark]);
    ApplyOne(Get(doc, ANNOTATIONS).value, mark);
    assert Under(ANNOTATIONS, [mark]) == [At(ANNOTATIONS + [ANN_INJECTED], Add(Str(cfg.agentImage)))];
  }

  /** The edits, taken together, are the direct rewrite. */
  lemma {:induction false} EditsRewrite(raw: Json, cfg: InjectorConfig, t: Target)
    requires Shaped(raw, t)
    ensures ApplyEdits(raw, PatchEdits(raw, cfg, t)) == Some(Rewritten(raw, cfg, t))
  {
    var pod := Get(raw, POD).value;
    var edits := PodEdits(pod, cfg, t);
    var wrapped := Put(raw, POD, RewritePod(pod, cfg, t));
    assert ApplyEdits(raw, Under(POD, edits)) == Some(wrapped) by {
      ContainerEditsBelow(cfg, t);
      Lift(raw, POD, edits);
      PodRewritten(pod, cfg, t);
    }
    AnnotationsOutsidePod(raw, RewritePod(pod, cfg, t));
    MarkAdded(wrapped, cfg);
    ApplyEditsAppend(raw, Under(POD, edits), [At(ANNOTATIONS + [ANN_INJECTED], Add(Str(cfg.agentImage)))]);
  }
}
