/** What can be read, pointer by pointer, at the places the injection wrote. */
module InjectedValues {
  import opened Wrappers
  import opened JsonPointer
  import opened JsonPatch
  import opened CronJobs
  import opened Injection
  import opened InjectionTheorems

  // ----- Reading below an item that was appended -----

  /** Item `i` of an array field, and what is below it. */
  lemma {:induction false} GetItem(doc: Json, field: string, i: nat, r: seq<string>)
    requires i < |Items(doc, field)|
    ensures Get(doc, [field, Itoa(i)] + r) == Get(Items(doc, field)[i], r)
  {
    ItoaParses(i);
    var path := [field, Itoa(i)] + r;
    assert path[1..][0] == Itoa(i) && path[1..][1..] == r;
  }

  lemma {:induction false} GetField(doc: Json, field: string)
    requires doc.Obj? && field in doc.fields
    ensures Get(doc, [field]) == Some(doc.fields[field])
  {
    assert [field][1..] == [];
  }

  lemma {:induction false} GetFieldBelow(doc: Json, field: string, r: seq<string>)
    requires doc.Obj? && field in doc.fields
    ensures Get(doc, [field] + r) == Get(doc.fields[field], r)
  {
    assert ([field] + r)[1..] == r;
  }

  lemma {:induction false} NoField(doc: Json, field: string)
    requires doc.Obj? && field !in doc.fields
    ensures Get(doc, [field]) == None
  {
  }

  /** A pointer into item `i` of an array of the pod. */
  function PodItem(field: string, i: nat, r: seq<string>): seq<string> {
    POD + ([field, Itoa(i)] + r)
  }

  /** A pointer into item `i` of an array of the target container. */
  function ContainerItem(t: Target, field: string, i: nat, r: seq<string>): seq<string> {
    POD + (["containers", Itoa(t.index)] + ([field, Itoa(i)] + r))
  }

  function TargetTree(raw: Json, t: Target): (c: Json)
    requires Shaped(raw, t)
    ensures c.Obj? && DecodeContainer(c) == Some(t.container)
  {
    Items(Get(raw, POD).value, "containers")[t.index]
  }

  lemma {:induction false} GetPodItem(raw: Json, cfg: InjectorConfig, t: Target, field: string, i: nat, r: seq<string>)
    requires Shaped(raw, t)
    requires i < |Items(RewritePod(Get(raw, POD).value, cfg, t), field)|
    ensures Get(Rewritten(raw, cfg, t), PodItem(field, i, r))
         == Get(Items(RewritePod(Get(raw, POD).value, cfg, t), field)[i], r)
  {
    GetInPod(raw, cfg, t, [field, Itoa(i)] + r);
    GetItem(RewritePod(Get(raw, POD).value, cfg, t), field, i, r);
  }

  lemma {:induction false} GetContainerItem(raw: Json, cfg: InjectorConfig, t: Target, field: string, i: nat, r: seq<string>)
    requires Shaped(raw, t)
    requires i < |Items(RewriteContainer(TargetTree(raw, t), cfg, t), field)|
    ensures Get(Rewritten(raw, cfg, t), ContainerItem(t, field, i, r))
         == Get(Items(RewriteContainer(TargetTree(raw, t), cfg, t), field)[i], r)
  {
    var pod := Get(raw, POD).value;
    GetInPod(raw, cfg, t, ["containers", Itoa(t.index)] + ([field, Itoa(i)] + r));
    GetInContainer(pod, cfg, t, [field, Itoa(i)] + r);
    GetItem(RewriteContainer(TargetTree(raw, t), cfg, t), field, i, r);
  }

  // ----- The ping key -----

  lemma {:induction false} PingKeyFields(cfg: InjectorConfig, key: string)
    ensures Get(PingKeyEnv(cfg, key), ["name"]) == Some(Str(key))
    ensures Get(PingKeyEnv(cfg, key), ["value"]) == None
    ensures Get(PingKeyEnv(cfg, key), ["valueFrom"] + (["secretKeyRef"] + ["name"])) == Some(Str(cfg.pingKeysSecret))
    ensures Get(PingKeyEnv(cfg, key), ["valueFrom"] + (["secretKeyRef"] + ["key"])) == Some(Str(key))
  {
    var e := PingKeyEnv(cfg, key);
    GetField(e, "name");
    NoField(e, "value");
    var from := e.fields["valueFrom"];
    GetFieldBelow(e, "valueFrom", ["secretKeyRef"] + ["name"]);
    GetFieldBelow(e, "valueFrom", ["secretKeyRef"] + ["key"]);
    GetFieldBelow(from, "secretKeyRef", ["name"]);
    GetFieldBelow(from, "secretKeyRef", ["key"]);
    GetField(from.fields["secretKeyRef"], "name");
    GetField(from.fields["secretKeyRef"], "key");
  }

  lemma {:induction false} EnvItems(c: Json, cfg: InjectorConfig, t: Target)
    requires c.Obj? && DecodeContainer(c) == Some(t.container)
    ensures Items(RewriteContainer(c, cfg, t), "env") == Items(c, "env") + InjectedEnv(cfg, t)
  {
    ListIsItems(c, "env");
  }

  lemma {:induction false} CommandItems(c: Json, cfg: InjectorConfig, t: Target)
    requires c.Obj? && DecodeContainer(c) == Some(t.container)
    ensures Items(RewriteContainer(c, cfg, t), "command") == Strings(WrappedArgv(cfg, t))
  {
  }

  /**
   Behind the container's own variables comes the ping key, taken from the configured Secret under
   the annotated name; and the command refers to the variable of that very name.
   */
  ghost predicate PingKeyWritten(raw: Json, cfg: InjectorConfig, t: Target, doc: Json)
    requires Shaped(raw, t)
  {
    var n, key := |Items(TargetTree(raw, t), "env")|, Some(Str(t.envKey));
    && Get(doc, ContainerItem(t, "env", n, ["name"])) == key
    && Get(doc, ContainerItem(t, "env", n, ["valueFrom"] + (["secretKeyRef"] + ["name"]))) == Some(Str(cfg.pingKeysSecret))
    && Get(doc, ContainerItem(t, "env", n, ["valueFrom"] + (["secretKeyRef"] + ["key"]))) == key
    && Get(doc, ContainerItem(t, "command", 2, [])) == Some(Str("--key=$(" + t.envKey + ")"))
  }

  lemma {:induction false} CommandWord(raw: Json, cfg: InjectorConfig, t: Target, i: nat)
    requires Shaped(raw, t) && i < |WrappedArgv(cfg, t)|
    ensures Get(Rewritten(raw, cfg, t), ContainerItem(t, "command", i, [])) == Some(Str(WrappedArgv(cfg, t)[i]))
  {
    CommandItems(TargetTree(raw, t), cfg, t);
    GetContainerItem(raw, cfg, t, "command", i, []);
  }

  lemma {:induction false} PingKeyReferenced(raw: Json, cfg: InjectorConfig, t: Target)
    requires Shaped(raw, t)
    ensures PingKeyWritten(raw, cfg, t, Rewritten(raw, cfg, t))
  {
    var c := TargetTree(raw, t);
    var n := |Items(c, "env")|;
    EnvItems(c, cfg, t);
    PingKeyFields(cfg, t.envKey);
    GetContainerItem(raw, cfg, t, "env", n, ["name"]);
    GetContainerItem(raw, cfg, t, "env", n, ["valueFrom"] + (["secretKeyRef"] + ["name"]));
    GetContainerItem(raw, cfg, t, "env", n, ["valueFrom"] + (["secretKeyRef"] + ["key"]));
    CommandWord(raw, cfg, t, 2);
  }

  // ----- The privacy variables -----

  /** Variable `i` of the target container has this name and plain value. */
  ghost predicate HasVariable(doc: Json, t: Target, i: nat, name: string, value: string) {
    && Get(doc, ContainerItem(t, "env", i, ["name"])) == Some(Str(name))
    && Get(doc, ContainerItem(t, "env", i, ["value"])) == Some(Str(value))
  }

  ghost predicate IsVariable(e: Json, name: string, value: string) {
    Get(e, ["name"]) == Some(Str(name)) && Get(e, ["value"]) == Some(Str(value))
  }

  lemma {:induction false} PlainVariable(name: string, value: string, nameField: string, valueField: string)
    requires nameField != valueField
    ensures var e := Obj(map[nameField := Str(name), valueField := Str(value)]);
            Get(e, [nameField]) == Some(Str(name)) && Get(e, [valueField]) == Some(Str(value))
  {
    var e := Obj(map[nameField := Str(name), valueField := Str(value)]);
    GetField(e, nameField);
    GetField(e, valueField);
  }

  lemma {:induction false} CaptureVariable()
    ensures "name" != "value"
    ensures "CROND_CAPTURE_OUTPUT" != "CROND_REDACT_PATTERNS"
  {
    assert |"CROND_CAPTURE_OUTPUT"| == 20 && |"CROND_REDACT_PATTERNS"| == 21;
  }

  function CaptureCount(cfg: InjectorConfig): nat {
    if cfg.captureOutput then 0 else 1
  }

  function PatternCount(cfg: InjectorConfig): nat {
    if cfg.redactPatterns == [] then 0 else 1
  }

  lemma {:induction false} PrivacyCount(cfg: InjectorConfig)
    ensures |PrivacyEnv(cfg)| == CaptureCount(cfg) + PatternCount(cfg)
  {
  }

  lemma {:induction false} CaptureFirst(cfg: InjectorConfig)
    ensures |PrivacyEnv(cfg)| == CaptureCount(cfg) + PatternCount(cfg)
    ensures !cfg.captureOutput ==> IsVariable(PrivacyEnv(cfg)[0], "CROND_CAPTURE_OUTPUT", "false")
  {
    CaptureVariable();
    PlainVariable("CROND_CAPTURE_OUTPUT", "false", "name", "value");
  }

  lemma {:induction false} PatternsLast(cfg: InjectorConfig)
    requires cfg.redactPatterns != []
    ensures CaptureCount(cfg) < |PrivacyEnv(cfg)|
    ensures IsVariable(PrivacyEnv(cfg)[CaptureCount(cfg)], "CROND_REDACT_PATTERNS", Join(cfg.redactPatterns, '\n'))
  {
    CaptureVariable();
    PlainVariable("CROND_REDACT_PATTERNS", Join(cfg.redactPatterns, '\n'), "name", "value");
  }

  /** `e` is reached as variable `i`. */
  lemma {:induction false} VariableAt(raw: Json, cfg: InjectorConfig, t: Target, i: nat, e: Json, name: string, value: string)
    requires Shaped(raw, t)
    requires var items := Items(RewriteContainer(TargetTree(raw, t), cfg, t), "env"); i < |items| && items[i] == e
    ensures HasVariable(Rewritten(raw, cfg, t), t, i, name, value) <==> IsVariable(e, name, value)
  {
    GetContainerItem(raw, cfg, t, "env", i, ["name"]);
    GetContainerItem(raw, cfg, t, "env", i, ["value"]);
  }

  /** Where the variables behind the ping key begin. */
  function AfterKey(raw: Json, t: Target): nat
    requires Shaped(raw, t)
  {
    |Items(TargetTree(raw, t), "env")| + 1
  }

  lemma {:induction false} AddedVariable(c: Json, cfg: InjectorConfig, t: Target, j: nat)
    requires c.Obj? && DecodeContainer(c) == Some(t.container) && j < |PrivacyEnv(cfg)|
    ensures var items, i := Items(RewriteContainer(c, cfg, t), "env"), |Items(c, "env")| + 1 + j;
            i < |items| && items[i] == PrivacyEnv(cfg)[j]
  {
    EnvItems(c, cfg, t);
  }

  lemma {:induction false} AddedCount(c: Json, cfg: InjectorConfig, t: Target)
    requires c.Obj? && DecodeContainer(c) == Some(t.container)
    ensures |Items(RewriteContainer(c, cfg, t), "env")| == |Items(c, "env")| + 1 + |PrivacyEnv(cfg)|
  {
    EnvItems(c, cfg, t);
  }

  /** The privacy variables come behind the ping key. */
  lemma {:induction false} PrivacyAt(raw: Json, cfg: InjectorConfig, t: Target, j: nat, name: string, value: string)
    requires Shaped(raw, t)
    requires j < |PrivacyEnv(cfg)| && IsVariable(PrivacyEnv(cfg)[j], name, value)
    ensures HasVariable(Rewritten(raw, cfg, t), t, AfterKey(raw, t) + j, name, value)
  {
    AddedVariable(TargetTree(raw, t), cfg, t, j);
    VariableAt(raw, cfg, t, AfterKey(raw, t) + j, PrivacyEnv(cfg)[j], name, value);
  }

  lemma {:induction false} PastTheEnd(raw: Json, cfg: InjectorConfig, t: Target, i: nat, r: seq<string>)
    requires Shaped(raw, t) && i >= |Items(RewriteContainer(TargetTree(raw, t), cfg, t), "env")|
    ensures Get(Rewritten(raw, cfg, t), ContainerItem(t, "env", i, r)) == None
  {
    var pod, path := Get(raw, POD).value, ["env", Itoa(i)] + r;
    GetInPod(raw, cfg, t, ["containers", Itoa(t.index)] + path);
    GetInContainer(pod, cfg, t, path);
    ItoaParses(i);
    assert path[1..][0] == Itoa(i);
  }

  /** If capturing is off, the next variable says so. */
  ghost predicate CaptureWritten(raw: Json, cfg: InjectorConfig, t: Target, doc: Json)
    requires Shaped(raw, t)
  {
    !cfg.captureOutput ==> HasVariable(doc, t, AfterKey(raw, t), "CROND_CAPTURE_OUTPUT", "false")
  }

  /** If there are patterns, they come next. */
  ghost predicate PatternsWritten(raw: Json, cfg: InjectorConfig, t: Target, doc: Json)
    requires Shaped(raw, t)
  {
    cfg.redactPatterns != [] ==>
      HasVariable(doc, t, AfterKey(raw, t) + CaptureCount(cfg), "CROND_REDACT_PATTERNS", Join(cfg.redactPatterns, '\n'))
  }

  /** Then the list ends. */
  ghost predicate NothingFollows(raw: Json, cfg: InjectorConfig, t: Target, doc: Json)
    requires Shaped(raw, t)
  {
    Get(doc, ContainerItem(t, "env", AfterKey(raw, t) + CaptureCount(cfg) + PatternCount(cfg), [])) == None
  }

  lemma {:induction false} CaptureTurnedOff(raw: Json, cfg: InjectorConfig, t: Target)
    requires Shaped(raw, t)
    ensures CaptureWritten(raw, cfg, t, Rewritten(raw, cfg, t))
  {
    if !cfg.captureOutput {
      CaptureFirst(cfg);
      PrivacyAt(raw, cfg, t, 0, "CROND_CAPTURE_OUTPUT", "false");
    }
  }

  lemma {:induction false} PatternsAdded(raw: Json, cfg: InjectorConfig, t: Target)
    requires Shaped(raw, t)
    ensures PatternsWritten(raw, cfg, t, Rewritten(raw, cfg, t))
  {
    if cfg.redactPatterns != [] {
      PatternsLast(cfg);
      PrivacyAt(raw, cfg, t, CaptureCount(cfg), "CROND_REDACT_PATTERNS", Join(cfg.redactPatterns, '\n'));
    }
  }

  lemma {:induction false} PastVariables(raw: Json, cfg: InjectorConfig, t: Target, i: nat)
    requires Shaped(raw, t) && i == AfterKey(raw, t) + |PrivacyEnv(cfg)|
    ensures Get(Rewritten(raw, cfg, t), ContainerItem(t, "env", i, [])) == None
  {
    AddedCount(TargetTree(raw, t), cfg, t);
    PastTheEnd(raw, cfg, t, i, []);
  }

  lemma {:induction false} NothingElseAdded(raw: Json, cfg: InjectorConfig, t: Target)
    requires Shaped(raw, t)
    ensures NothingFollows(raw, cfg, t, Rewritten(raw, cfg, t))
  {
    PrivacyCount(cfg);
    PastVariables(raw, cfg, t, AfterKey(raw, t) + CaptureCount(cfg) + PatternCount(cfg));
  }

  /** Capturing is turned off in the document exactly when it is configured off. */
  lemma {:induction false} CaptureOffIff(raw: Json, cfg: InjectorConfig, t: Target)
    requires Shaped(raw, t)
    ensures var doc, n := Rewritten(raw, cfg, t), |Items(TargetTree(raw, t), "env")|;
            (exists i: nat :: i >= n && HasVariable(doc, t, i, "CROND_CAPTURE_OUTPUT", "false")) <==> !cfg.captureOutput
  {
    var doc, n := Rewritten(raw, cfg, t), |Items(TargetTree(raw, t), "env")|;
    CaptureTurnedOff(raw, cfg, t);
    if cfg.captureOutput {
      forall i: nat | i >= n
        ensures !HasVariable(doc, t, i, "CROND_CAPTURE_OUTPUT", "false")
      {
        NotTurnedOff(raw, cfg, t, i);
      }
    }
  }

  lemma {:induction false} NoCaptureVariable(cfg: InjectorConfig, key: string, j: nat)
    requires cfg.captureOutput && j < |[PingKeyEnv(cfg, key)] + PrivacyEnv(cfg)|
    ensures !IsVariable(([PingKeyEnv(cfg, key)] + PrivacyEnv(cfg))[j], "CROND_CAPTURE_OUTPUT", "false")
  {
    CaptureFirst(cfg);
    if cfg.redactPatterns != [] {
      PatternsLast(cfg);
    }
    CaptureVariable();
    PingKeyFields(cfg, key);
  }

  lemma {:induction false} NotTurnedOff(raw: Json, cfg: InjectorConfig, t: Target, i: nat)
    requires Shaped(raw, t) && cfg.captureOutput && i >= |Items(TargetTree(raw, t), "env")|
    ensures !HasVariable(Rewritten(raw, cfg, t), t, i, "CROND_CAPTURE_OUTPUT", "false")
  {
    var c := TargetTree(raw, t);
    var items, n := Items(RewriteContainer(c, cfg, t), "env"), |Items(c, "env")|;
    EnvItems(c, cfg, t);
    if i < |items| {
      VariableAt(raw, cfg, t, i, items[i], "CROND_CAPTURE_OUTPUT", "false");
      NoCaptureVariable(cfg, t.envKey, i - n);
    } else {
      PastTheEnd(raw, cfg, t, i, ["name"]);
    }
  }

  // ----- The agent's binary in standard mode -----

  function Binary(cfg: InjectorConfig): string {
    cfg.sharedMountPath + "/crond-agent"
  }

  lemma {:induction false} PodItems(pod: Json, cfg: InjectorConfig, t: Target)
    requires pod.Obj? && t.index < |Items(pod, "containers")| && Items(pod, "containers")[t.index].Obj?
    requires !t.prebaked
    ensures Items(RewritePod(pod, cfg, t), "volumes") == Items(pod, "volumes") + [Volume(cfg)]
    ensures Items(RewritePod(pod, cfg, t), "initContainers") == Items(pod, "initContainers") + [InitContainer(cfg)]
  {
  }

  lemma {:induction false} MountItems(c: Json, cfg: InjectorConfig, t: Target)
    requires c.Obj? && DecodeContainer(c) == Some(t.container) && !t.prebaked
    ensures Items(RewriteContainer(c, cfg, t), "volumeMounts") == Items(c, "volumeMounts") + [Mount(cfg)]
  {
    ListIsItems(c, "volumeMounts");
  }

  lemma {:induction false} MountFields(cfg: InjectorConfig)
    ensures Get(Mount(cfg), ["name"]) == Some(Str(cfg.sharedVolumeName))
    ensures Get(Mount(cfg), ["mountPath"]) == Some(Str(cfg.sharedMountPath))
  {
    GetField(Mount(cfg), "name");
    GetField(Mount(cfg), "mountPath");
  }

  lemma {:induction false} VolumeFields(cfg: InjectorConfig)
    ensures Get(Volume(cfg), ["name"]) == Some(Str(cfg.sharedVolumeName))
    ensures Get(Volume(cfg), ["emptyDir"]) == Some(Obj(map[]))
  {
    GetField(Volume(cfg), "name");
    GetField(Volume(cfg), "emptyDir");
  }

  /** One volume is added; the target container mounts it where its command finds the agent. */
  ghost predicate VolumeWritten(raw: Json, cfg: InjectorConfig, t: Target, doc: Json)
    requires Shaped(raw, t)
  {
    var name := Some(Str(cfg.sharedVolumeName));
    var v, m := |Items(Get(raw, POD).value, "volumes")|, |Items(TargetTree(raw, t), "volumeMounts")|;
    && Get(doc, PodItem("volumes", v, ["name"])) == name
    && Get(doc, PodItem("volumes", v, ["emptyDir"])) == Some(Obj(map[]))
    && Get(doc, ContainerItem(t, "volumeMounts", m, ["name"])) == name
    && Get(doc, ContainerItem(t, "volumeMounts", m, ["mountPath"])) == Some(Str(cfg.sharedMountPath))
    && Get(doc, ContainerItem(t, "command", 0, [])) == Some(Str(Binary(cfg)))
  }

  lemma {:induction false} MountWritten(raw: Json, cfg: InjectorConfig, t: Target, m: nat)
    requires Shaped(raw, t) && !t.prebaked && m == |Items(TargetTree(raw, t), "volumeMounts")|
    ensures Get(Rewritten(raw, cfg, t), ContainerItem(t, "volumeMounts", m, ["name"])) == Some(Str(cfg.sharedVolumeName))
    ensures Get(Rewritten(raw, cfg, t), ContainerItem(t, "volumeMounts", m, ["mountPath"])) == Some(Str(cfg.sharedMountPath))
  {
    MountItems(TargetTree(raw, t), cfg, t);
    MountFields(cfg);
    GetContainerItem(raw, cfg, t, "volumeMounts", m, ["name"]);
    GetContainerItem(raw, cfg, t, "volumeMounts", m, ["mountPath"]);
  }

  lemma {:induction false} VolumeMounted(raw: Json, cfg: InjectorConfig, t: Target)
    requires Shaped(raw, t) && !t.prebaked
    ensures VolumeWritten(raw, cfg, t, Rewritten(raw, cfg, t))
  {
    var pod, c := Get(raw, POD).value, TargetTree(raw, t);
    var v, m := |Items(pod, "volumes")|, |Items(c, "volumeMounts")|;
    PodItems(pod, cfg, t);
    VolumeFields(cfg);
    GetPodItem(raw, cfg, t, "volumes", v, ["name"]);
    GetPodItem(raw, cfg, t, "volumes", v, ["emptyDir"]);
    MountWritten(raw, cfg, t, m);
    CommandWord(raw, cfg, t, 0);
  }

  /** The init container copies the agent out of the configured image. */
  lemma {:induction false} InstallerFields(cfg: InjectorConfig)
    ensures Get(InitContainer(cfg), ["name"]) == Some(Str("crond-agent-installer"))
    ensures Get(InitContainer(cfg), ["image"]) == Some(Str(cfg.agentImage))
    ensures Get(InitContainer(cfg), ["imagePullPolicy"]) == Some(Str(cfg.imagePullPolicy))
    ensures Get(InitContainer(cfg), ["securityContext"]) == cfg.containerSecurityContext
    ensures Get(InitContainer(cfg), ["resources"]) == cfg.initResources
  {
    assert Child(InitContainer(cfg), "name") == Some(Str("crond-agent-installer"));
    assert Child(InitContainer(cfg), "image") == Some(Str(cfg.agentImage));
    assert Child(InitContainer(cfg), "imagePullPolicy") == Some(Str(cfg.imagePullPolicy));
    assert Child(InitContainer(cfg), "securityContext") == cfg.containerSecurityContext;
    assert Child(InitContainer(cfg), "resources") == cfg.initResources;
  }

  lemma {:induction false} InstallerLists(cfg: InjectorConfig)
    ensures Items(InitContainer(cfg), "command") == [Str("/crond-agent")]
    ensures Items(InitContainer(cfg), "args") == [Str("install"), Str("--target=" + Binary(cfg))]
    ensures Items(InitContainer(cfg), "volumeMounts") == [Mount(cfg)]
  {
    assert "--target=" + Binary(cfg) == "--target=" + cfg.sharedMountPath + "/crond-agent";
  }

  lemma {:induction false} InstallerItems(cfg: InjectorConfig)
    ensures Get(InitContainer(cfg), ["command", Itoa(0)] + []) == Some(Str("/crond-agent"))
    ensures Get(InitContainer(cfg), ["args", Itoa(0)] + []) == Some(Str("install"))
    ensures Get(InitContainer(cfg), ["args", Itoa(1)] + []) == Some(Str("--target=" + Binary(cfg)))
    ensures Get(InitContainer(cfg), ["volumeMounts", Itoa(0)] + ["name"]) == Some(Str(cfg.sharedVolumeName))
    ensures Get(InitContainer(cfg), ["volumeMounts", Itoa(0)] + ["mountPath"]) == Some(Str(cfg.sharedMountPath))
  {
    var ic := InitContainer(cfg);
    InstallerLists(cfg);
    MountFields(cfg);
    GetItem(ic, "command", 0, []);
    GetItem(ic, "args", 0, []);
    GetItem(ic, "args", 1, []);
    GetItem(ic, "volumeMounts", 0, ["name"]);
    GetItem(ic, "volumeMounts", 0, ["mountPath"]);
  }

  /** Behind the init containers that were there comes the installer, with the configured image. */
  ghost predicate InstallerWritten(raw: Json, cfg: InjectorConfig, doc: Json)
    requires Get(raw, POD).Some?
  {
    var n := |Items(Get(raw, POD).value, "initContainers")|;
    && Get(doc, PodItem("initContainers", n, ["name"])) == Some(Str("crond-agent-installer"))
    && Get(doc, PodItem("initContainers", n, ["image"])) == Some(Str(cfg.agentImage))
    && Get(doc, PodItem("initContainers", n, ["imagePullPolicy"])) == Some(Str(cfg.imagePullPolicy))
    && Get(doc, PodItem("initContainers", n, ["securityContext"])) == cfg.containerSecurityContext
    && Get(doc, PodItem("initContainers", n, ["resources"])) == cfg.initResources
  }

  lemma {:induction false} InstallerAppended(raw: Json, cfg: InjectorConfig, t: Target)
    requires Shaped(raw, t) && !t.prebaked
    ensures InstallerWritten(raw, cfg, Rewritten(raw, cfg, t))
  {
    var n := InstallerThere(raw, cfg, t);
    InstallerFields(cfg);
    GetPodItem(raw, cfg, t, "initContainers", n, ["name"]);
    GetPodItem(raw, cfg, t, "initContainers", n, ["image"]);
    GetPodItem(raw, cfg, t, "initContainers", n, ["imagePullPolicy"]);
    GetPodItem(raw, cfg, t, "initContainers", n, ["securityContext"]);
    GetPodItem(raw, cfg, t, "initContainers", n, ["resources"]);
  }

  lemma {:induction false} InstallerThere(raw: Json, cfg: InjectorConfig, t: Target) returns (n: nat)
    requires Shaped(raw, t) && !t.prebaked
    ensures n == |Items(Get(raw, POD).value, "initContainers")|
    ensures n < |Items(RewritePod(Get(raw, POD).value, cfg, t), "initContainers")|
    ensures Items(RewritePod(Get(raw, POD).value, cfg, t), "initContainers")[n] == InitContainer(cfg)
  {
    n := |Items(Get(raw, POD).value, "initContainers")|;
    PodItems(Get(raw, POD).value, cfg, t);
  }

  /** It mounts the same volume, and installs to the path that is the first word of the target's command. */
  ghost predicate InstallsTo(raw: Json, cfg: InjectorConfig, doc: Json)
    requires Get(raw, POD).Some?
  {
    var n := |Items(Get(raw, POD).value, "initContainers")|;
    && Get(doc, PodItem("initContainers", n, ["command", Itoa(0)] + [])) == Some(Str("/crond-agent"))
    && Get(doc, PodItem("initContainers", n, ["args", Itoa(0)] + [])) == Some(Str("install"))
    && Get(doc, PodItem("initContainers", n, ["args", Itoa(1)] + [])) == Some(Str("--target=" + Binary(cfg)))
    && Get(doc, PodItem("initContainers", n, ["volumeMounts", Itoa(0)] + ["name"])) == Some(Str(cfg.sharedVolumeName))
    && Get(doc, PodItem("initContainers", n, ["volumeMounts", Itoa(0)] + ["mountPath"])) == Some(Str(cfg.sharedMountPath))
  }

  lemma {:induction false} InstallerTarget(raw: Json, cfg: InjectorConfig, t: Target)
    requires Shaped(raw, t) && !t.prebaked
    ensures InstallsTo(raw, cfg, Rewritten(raw, cfg, t))
  {
    var n := InstallerThere(raw, cfg, t);
    InstallerItems(cfg);
    GetPodItem(raw, cfg, t, "initContainers", n, ["command", Itoa(0)] + []);
    GetPodItem(raw, cfg, t, "initContainers", n, ["args", Itoa(0)] + []);
    GetPodItem(raw, cfg, t, "initContainers", n, ["args", Itoa(1)] + []);
    GetPodItem(raw, cfg, t, "initContainers", n, ["volumeMounts", Itoa(0)] + ["name"]);
    GetPodItem(raw, cfg, t, "initContainers", n, ["volumeMounts", Itoa(0)] + ["mountPath"]);
  }

  // ----- The rest of what is written -----

  /** In pre-baked mode the agent is expected on the path. */
  lemma {:induction false} PrebakedBinary(raw: Json, cfg: InjectorConfig, t: Target)
    requires Shaped(raw, t) && t.prebaked
    ensures Get(Rewritten(raw, cfg, t), ContainerItem(t, "command", 0, [])) == Some(Str("crond-agent"))
  {
    CommandWord(raw, cfg, t, 0);
  }

  /** The marker that stops a second injection names the image. */
  lemma {:induction false} MarkerWritten(raw: Json, cfg: InjectorConfig, t: Target)
    requires Shaped(raw, t)
    ensures Get(Rewritten(raw, cfg, t), ["metadata", "annotations"] + ["crond.io/injected"]) == Some(Str(cfg.agentImage))
  {
    var pod := RewritePod(Get(raw, POD).value, cfg, t);
    AnnotationsOutsidePod(raw, pod);
    var ann := Obj(Get(raw, ANNOTATIONS).value.fields[ANN_INJECTED := Str(cfg.agentImage)]);
    PutInside(Put(raw, POD, pod), ANNOTATIONS, ann, [ANN_INJECTED]);
    GetField(ann, ANN_INJECTED);
  }

  /** Everything the injection is for, read off the patched document. */
  ghost predicate ValuesWritten(raw: Json, cfg: InjectorConfig, t: Target, doc: Json)
    requires Shaped(raw, t)
  {
    && PingKeyWritten(raw, cfg, t, doc)
    && CaptureWritten(raw, cfg, t, doc) && PatternsWritten(raw, cfg, t, doc) && NothingFollows(raw, cfg, t, doc)
    && (if t.prebaked then Get(doc, ContainerItem(t, "command", 0, [])) == Some(Str("crond-agent"))
        else VolumeWritten(raw, cfg, t, doc) && InstallerWritten(raw, cfg, doc) && InstallsTo(raw, cfg, doc))
    && Get(doc, ["metadata", "annotations"] + ["crond.io/injected"]) == Some(Str(cfg.agentImage))
  }

  lemma {:induction false} AllWritten(raw: Json, cfg: InjectorConfig, t: Target)
    requires Shaped(raw, t)
    ensures ValuesWritten(raw, cfg, t, Rewritten(raw, cfg, t))
  {
    PingKeyReferenced(raw, cfg, t);
    CaptureTurnedOff(raw, cfg, t);
    PatternsAdded(raw, cfg, t);
    NothingElseAdded(raw, cfg, t);
    MarkerWritten(raw, cfg, t);
    if t.prebaked {
      PrebakedBinary(raw, cfg, t);
    } else {
      VolumeMounted(raw, cfg, t);
      InstallerAppended(raw, cfg, t);
      InstallerTarget(raw, cfg, t);
    }
  }
}
