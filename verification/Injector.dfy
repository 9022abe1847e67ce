/** The patch builder itself, operation by operation. */
module Injector {
  import opened Wrappers
  import opened JsonPointer
  import opened JsonPatch
  import opened CronJobs
  import opened Injection
  import opened InjectedValues

  // ----- The rendered paths name the intended tokens -----

  lemma {:induction false} FieldPathRenders(prefix: seq<string>, field: string)
    requires Plain(field)
    ensures Render(prefix + [field]) == Render(prefix) + ("/" + field) == Render(prefix) + "/" + field
  {
    RenderAppend(prefix, [field]);
    RenderOne(field);
    EscapePlain(field);
  }

  predicate Plain(field: string) {
    '~' !in field && '/' !in field
  }

  lemma {:induction false} RenderTwo(a: string, b: string)
    requires Plain(a) && Plain(b)
    ensures Render([a, b]) == ("/" + a) + ("/" + b)
  {
    RenderAppend([a], [b]);
    assert [a] + [b] == [a, b];
    RenderOne(a);
    RenderOne(b);
    EscapePlain(a);
    EscapePlain(b);
  }

  lemma {:induction false} RenderFive(a: string, b: string, c: string, d: string, e: string)
    requires Plain(a) && Plain(b) && Plain(c) && Plain(d) && Plain(e)
    ensures Render([a, b, c, d, e]) == ("/" + a) + ("/" + b) + ("/" + c) + ("/" + d) + ("/" + e)
  {
    RenderTwo(a, b);
    RenderTwo(c, d);
    RenderAppend([a, b], [c, d]);
    assert [a, b] + [c, d] == [a, b, c, d];
    FieldPathRenders([a, b, c, d], e);
    assert [a, b, c, d] + [e] == [a, b, c, d, e];
  }

  lemma {:induction false} PlainNames()
    ensures Plain("spec") && Plain("jobTemplate") && Plain("template")
    ensures Plain("metadata") && Plain("annotations")
  {
  }

  lemma {:induction false} PlainFields()
    ensures Plain("volumes") && Plain("initContainers") && Plain("volumeMounts")
    ensures Plain("containers") && Plain("command") && Plain("args") && Plain("env")
  {
  }

  lemma {:induction false} SlashedNames()
    ensures "/" + "spec" == "/spec" && "/" + "jobTemplate" == "/jobTemplate" && "/" + "template" == "/template"
    ensures "/" + "metadata" == "/metadata" && "/" + "annotations" == "/annotations"
    ensures "/" + "volumes" == "/volumes" && "/" + "initContainers" == "/initContainers"
  {
  }

  lemma {:induction false} PodPathRenders()
    ensures Render(POD) == POD_PATH
  {
    PlainNames();
    SlashedNames();
    RenderFive("spec", "jobTemplate", "spec", "template", "spec");
  }

  lemma {:induction false} ItoaPlain(n: nat)
    ensures '~' !in Itoa(n) && '/' !in Itoa(n)
  {
    if n < 10 {
    } else {
      ItoaPlain(n / 10);
    }
  }

  lemma {:induction false} ThreeMoreRender(prefix: seq<string>, a: string, b: string, c: string)
    requires Plain(a) && Plain(b) && Plain(c)
    ensures Render(prefix + [a, b] + [c]) == Render(prefix) + "/" + a + "/" + b + "/" + c
  {
    FieldPathRenders(prefix, a);
    FieldPathRenders(prefix + [a], b);
    assert prefix + [a] + [b] == prefix + [a, b];
    FieldPathRenders(prefix + [a, b], c);
  }

  lemma {:induction false} SlashedContainers(base: string, index: string, field: string)
    ensures base + "/containers/" + index + "/" + field == base + "/" + "containers" + "/" + index + "/" + field
  {
    assert "/containers/" == "/" + "containers" + "/";
  }

  lemma {:induction false} ContainerSubRenders(index: nat, field: string)
    requires Plain(field)
    ensures ContainerSub(index, field) == Render(POD + ["containers", Itoa(index)] + [field])
  {
    PodPathRenders();
    SlashedContainers(POD_PATH, Itoa(index), field);
    ItoaPlain(index);
    PlainFields();
    ThreeMoreRender(POD, "containers", Itoa(index), field);
  }

  lemma {:induction false} AnnotationsRender()
    ensures Render(ANNOTATIONS) + "/" == ANNOTATIONS_PATH
  {
    PlainNames();
    SlashedNames();
    RenderTwo("metadata", "annotations");
  }

  lemma {:induction false} KeyPathParses(prefix: seq<string>, path: string, key: string)
    requires Render(prefix) + "/" == path
    ensures Parse(path + Escape(key)) == Some(prefix + [key])
  {
    RenderAppend(prefix, [key]);
    RenderOne(key);
    assert path + Escape(key) == Render(prefix) + ("/" + Escape(key));
    ParseRender(prefix + [key]);
  }

  /** Escaping makes the annotation key one token. */
  lemma {:induction false} InjectedPathParses()
    ensures Parse(ANNOTATIONS_PATH + Escape(ANN_INJECTED)) == Some(ANNOTATIONS + [ANN_INJECTED])
  {
    AnnotationsRender();
    KeyPathParses(ANNOTATIONS, ANNOTATIONS_PATH, ANN_INJECTED);
  }

  lemma {:induction false} OpMeans(op: Op, prefix: seq<string>, at: At)
    requires op.path == Render(prefix + at.path) && EditOf(op) == Some(at.edit)
    ensures Means(op, Under(prefix, [at])[0])
  {
    ParseRender(prefix + at.path);
  }

  lemma {:induction false} AppendMeans(path: string, prefix: seq<string>, field: string, empty: bool, v: Json)
    requires path == Render(prefix + [field])
    ensures Means(AddToArray(path, empty, v), Under(prefix, [AppendEdit(field, empty, v)])[0])
  {
    if !empty {
      FieldPathRenders(prefix + [field], "-");
      assert prefix + [field] + ["-"] == prefix + [field, "-"];
    }
    OpMeans(AddToArray(path, empty, v), prefix, AppendEdit(field, empty, v));
  }

  lemma {:induction false} AllMeanAppend(ops: seq<Op>, ats: seq<At>, op: Op, at: At)
    requires AllMean(ops, ats) && Means(op, at)
    ensures AllMean(ops + [op], ats + [at])
  {
  }

  lemma {:induction false} UnderAppend(prefix: seq<string>, a: seq<At>, b: seq<At>)
    ensures Under(prefix, a + b) == Under(prefix, a) + Under(prefix, b)
  {
  }

  lemma {:induction false} UnderTwice(p: seq<string>, q: seq<string>, ats: seq<At>)
    ensures Under(p, Under(q, ats)) == Under(p + q, ats)
  {
    forall i | 0 <= i < |ats|
      ensures Under(p, Under(q, ats))[i] == Under(p + q, ats)[i]
    {
      assert p + (q + ats[i].path) == p + q + ats[i].path;
    }
  }

  // ----- The pieces -----

  /** The command list grows flag by flag, argument by argument. */
  method WrappedCommand(cfg: InjectorConfig, t: Target) returns (out: seq<string>)
    ensures out == WrappedArgv(cfg, t)
  {
    var bin := "crond-agent";
    if !t.prebaked {
      bin := cfg.sharedMountPath + "/crond-agent";
    }
    out := [bin, "exec", "--key=$(" + t.envKey + ")", "--api-url=" + cfg.apiUrl];
    ghost var head := out;
    for i := 0 to |cfg.extraArgs|
      invariant out == head + cfg.extraArgs[..i]
    {
      out := out + [cfg.extraArgs[i]];
    }
    out := out + ["--"];
    ghost var flags := out;
    for i := 0 to |t.container.command|
      invariant out == flags + t.container.command[..i]
    {
      out := out + [t.container.command[i]];
    }
    ghost var command := out;
    for i := 0 to |t.container.args|
      invariant out == command + t.container.args[..i]
    {
      out := out + [t.container.args[i]];
    }
  }

  method FindTarget(containers: seq<Container>, name: string) returns (index: int)
    ensures index == TargetIndex(containers, name)
  {
    if |containers| == 0 {
      return -1;
    }
    if name == "" {
      return 0;
    }
    for i := 0 to |containers|
      invariant forall j | 0 <= j < i :: containers[j].name != name
    {
      if containers[i].name == name {
        return i;
      }
    }
    return -1;
  }

  method HasInstaller(names: seq<string>) returns (found: bool)
    ensures found <==> INSTALLER in names
  {
    for i := 0 to |names|
      invariant INSTALLER !in names[..i]
    {
      if names[i] == INSTALLER {
        return true;
      }
    }
    return false;
  }

  /** Volume, installer and mount; nothing in pre-baked mode. */
  method InstallOps(pod: Pod, cfg: InjectorConfig, t: Target) returns (ops: seq<Op>)
    requires !t.prebaked
    ensures AllMean(ops, Under(POD, SetupEdits(pod.volumes == [], pod.initNames == [], cfg, t))
                         + Under(POD + ["containers", Itoa(t.index)], MountEdits(cfg, t)))
  {
    ops := [AddToArray(POD_PATH + "/volumes", |pod.volumes| == 0, Volume(cfg))];
    ops := ops + [AddToArray(POD_PATH + "/initContainers", |pod.initNames| == 0, InitContainer(cfg))];
    ops := ops + [AddToArray(ContainerSub(t.index, "volumeMounts"), |t.container.mounts| == 0, Mount(cfg))];
    InstallMeans(t.index, |pod.volumes| == 0, Volume(cfg), |pod.initNames| == 0, InitContainer(cfg),
                 |t.container.mounts| == 0, Mount(cfg));
  }

  lemma {:induction false} PodFieldMeans(slashed: string, field: string, empty: bool, v: Json)
    requires Plain(field) && "/" + field == slashed
    ensures Means(AddToArray(POD_PATH + slashed, empty, v), Under(POD, [AppendEdit(field, empty, v)])[0])
  {
    PodPathRenders();
    FieldPathRenders(POD, field);
    AppendMeans(POD_PATH + slashed, POD, field, empty, v);
  }

  lemma {:induction false} InstallMeans(index: nat, e1: bool, v1: Json, e2: bool, v2: Json, e3: bool, v3: Json)
    ensures AllMean([AddToArray(POD_PATH + "/volumes", e1, v1)]
                    + [AddToArray(POD_PATH + "/initContainers", e2, v2)]
                    + [AddToArray(ContainerSub(index, "volumeMounts"), e3, v3)],
                    Under(POD, [AppendEdit("volumes", e1, v1), AppendEdit("initContainers", e2, v2)])
                    + Under(POD + ["containers", Itoa(index)], [AppendEdit("volumeMounts", e3, v3)]))
  {
    PlainFields();
    SlashedNames();
    PodFieldMeans("/volumes", "volumes", e1, v1);
    PodFieldMeans("/initContainers", "initContainers", e2, v2);
    ContainerSubRenders(index, "volumeMounts");
    AppendMeans(ContainerSub(index, "volumeMounts"), POD + ["containers", Itoa(index)], "volumeMounts", e3, v3);
  }

  /** Command and args of the container. */
  method RunOps(cfg: InjectorConfig, t: Target) returns (ops: seq<Op>)
    ensures AllMean(ops, Under(POD + ["containers", Itoa(t.index)], CommandEdits(cfg, t)))
  {
    var argv := WrappedCommand(cfg, t);
    ops := [Op("replace", ContainerSub(t.index, "command"), Some(Arr(Strings(argv))))];
    if |t.container.args| > 0 {
      ops := ops + [Op("remove", ContainerSub(t.index, "args"), None)];
    }
    RunMeans(t.index, Arr(Strings(argv)), |t.container.args| > 0);
  }

  lemma {:induction false} FieldMeans(index: nat, op: Op, at: At, field: string)
    requires Plain(field) && at.path == [field]
    requires op.path == ContainerSub(index, field) && EditOf(op) == Some(at.edit)
    ensures AllMean([op], Under(POD + ["containers", Itoa(index)], [at]))
  {
    ContainerSubRenders(index, field);
    OpMeans(op, POD + ["containers", Itoa(index)], at);
  }

  lemma {:induction false} RunMeans(index: nat, argv: Json, fold: bool)
    ensures AllMean([Op("replace", ContainerSub(index, "command"), Some(argv))]
                    + (if fold then [Op("remove", ContainerSub(index, "args"), None)] else []),
                    Under(POD + ["containers", Itoa(index)],
                          [At(["command"], Replace(argv))] + (if fold then [At(["args"], Remove)] else [])))
  {
    var prefix := POD + ["containers", Itoa(index)];
    var command, args := At(["command"], Replace(argv)), At(["args"], Remove);
    PlainFields();
    FieldMeans(index, Op("replace", ContainerSub(index, "command"), Some(argv)), command, "command");
    FieldMeans(index, Op("remove", ContainerSub(index, "args"), None), args, "args");
    UnderAppend(prefix, [command], if fold then [args] else []);
    if fold {
      AllMeanJoin([Op("replace", ContainerSub(index, "command"), Some(argv))], Under(prefix, [command]),
                  [Op("remove", ContainerSub(index, "args"), None)], Under(prefix, [args]));
    }
  }

  method EnvOps(cfg: InjectorConfig, t: Target) returns (ops: seq<Op>)
    ensures AllMean(ops, Under(POD + ["containers", Itoa(t.index)], EnvEdits(cfg, t)))
  {
    var envs := [PingKeyEnv(cfg, t.envKey)];
    envs := envs + PrivacyEnv(cfg);
    ops := AddEnv(ContainerSub(t.index, "env"), t.index, |t.container.env| == 0, envs);
  }

  /** A whole-array add, or one append per variable. */
  method AddEnv(path: string, ghost index: nat, empty: bool, envs: seq<Json>) returns (ops: seq<Op>)
    requires path == ContainerSub(index, "env")
    ensures AllMean(ops, Under(POD + ["containers", Itoa(index)],
                               if empty then [At(["env"], Add(Arr(envs)))] else AppendEach("env", envs)))
  {
    if empty {
      ops := [Op("add", path, Some(Arr(envs)))];
      PlainFields();
      FieldMeans(index, ops[0], At(["env"], Add(Arr(envs))), "env");
    } else {
      ops := [];
      for i := 0 to |envs|
        invariant AllMean(ops, Under(POD + ["containers", Itoa(index)], AppendEach("env", envs[..i])))
      {
        EnvStep(ops, index, envs[..i], envs[i]);
        assert envs[..i] + [envs[i]] == envs[..i + 1];
        ops := ops + [Op("add", path + "/-", Some(envs[i]))];
      }
      assert envs[..|envs|] == envs;
    }
  }

  lemma {:induction false} EnvStep(ops: seq<Op>, index: nat, done: seq<Json>, v: Json)
    requires AllMean(ops, Under(POD + ["containers", Itoa(index)], AppendEach("env", done)))
    ensures AllMean(ops + [Op("add", ContainerSub(index, "env") + "/-", Some(v))],
                    Under(POD + ["containers", Itoa(index)], AppendEach("env", done + [v])))
  {
    PlainFields();
    ContainerSubRenders(index, "env");
    AppendStep(ops, ContainerSub(index, "env"), POD + ["containers", Itoa(index)], "env", done, v);
  }

  lemma {:induction false} AppendStep(ops: seq<Op>, path: string, prefix: seq<string>, field: string,
                                      done: seq<Json>, v: Json)
    requires path == Render(prefix + [field])
    requires AllMean(ops, Under(prefix, AppendEach(field, done)))
    ensures AllMean(ops + [Op("add", path + "/-", Some(v))], Under(prefix, AppendEach(field, done + [v])))
  {
    AppendMeans(path, prefix, field, false, v);
    assert AppendEach(field, done + [v]) == AppendEach(field, done) + [AppendEdit(field, false, v)];
    UnderAppend(prefix, AppendEach(field, done), [AppendEdit(field, false, v)]);
    AllMeanAppend(ops, Under(prefix, AppendEach(field, done)), Op("add", path + "/-", Some(v)),
                  Under(prefix, [AppendEdit(field, false, v)])[0]);
  }

  lemma {:induction false} MarkMeans(cfg: InjectorConfig)
    ensures Means(Op("add", ANNOTATIONS_PATH + Escape(ANN_INJECTED), Some(Str(cfg.agentImage))),
                  At(ANNOTATIONS + [ANN_INJECTED], Add(Str(cfg.agentImage))))
  {
    InjectedPathParses();
  }

  /** The edits collected by the methods above are the ones the rewrite is proved from. */
  lemma {:induction false} EditsAssemble(raw: Json, pod: Pod, cfg: InjectorConfig, t: Target)
    requires Shaped(raw, t) && DecodePod(Get(raw, POD).value) == Some(pod)
    ensures var prefix := POD + ["containers", Itoa(t.index)];
            Under(POD, SetupEdits(pod.volumes == [], pod.initNames == [], cfg, t))
            + Under(prefix, MountEdits(cfg, t)) + Under(prefix, CommandEdits(cfg, t)) + Under(prefix, EnvEdits(cfg, t))
            + [At(ANNOTATIONS + [ANN_INJECTED], Add(Str(cfg.agentImage)))]
            == PatchEdits(raw, cfg, t)
  {
    var tree := Get(raw, POD).value;
    ListIsItems(tree, "volumes");
    ListIsItems(tree, "initContainers");
    UnderParts(POD, ["containers", Itoa(t.index)], SetupEdits(pod.volumes == [], pod.initNames == [], cfg, t),
               MountEdits(cfg, t), CommandEdits(cfg, t), EnvEdits(cfg, t));
  }

  lemma {:induction false} UnderParts(p: seq<string>, q: seq<string>, setup: seq<At>, a: seq<At>, b: seq<At>, c: seq<At>)
    ensures Under(p, setup) + Under(p + q, a) + Under(p + q, b) + Under(p + q, c)
         == Under(p, setup + Under(q, a + b + c))
  {
    UnderAppend(p + q, a, b);
    UnderAppend(p + q, a + b, c);
    UnderTwice(p, q, a + b + c);
    UnderAppend(p, setup, Under(q, a + b + c));
  }

  lemma {:induction false} AllMeanJoin(a: seq<Op>, x: seq<At>, b: seq<Op>, y: seq<At>)
    requires AllMean(a, x) && AllMean(b, y)
    ensures AllMean(a + b, x + y)
  {
  }

  /** Applied to the CronJob, the operations succeed one by one and amount to the direct rewrite. */
  method BuildOps(raw: Json, pod: Pod, cfg: InjectorConfig, t: Target) returns (ops: seq<Op>)
    requires Shaped(raw, t) && DecodePod(Get(raw, POD).value) == Some(pod)
    ensures ops != [] && ApplyPatch(raw, ops) == Some(Rewritten(raw, cfg, t))
  {
    ghost var prefix := POD + ["containers", Itoa(t.index)];
    ghost var ats := Under(POD, SetupEdits(pod.volumes == [], pod.initNames == [], cfg, t))
                     + Under(prefix, MountEdits(cfg, t));
    ops := [];
    if !t.prebaked {
      ops := InstallOps(pod, cfg, t);
    }
    var run := RunOps(cfg, t);
    AllMeanJoin(ops, ats, run, Under(prefix, CommandEdits(cfg, t)));
    ops, ats := ops + run, ats + Under(prefix, CommandEdits(cfg, t));
    var env := EnvOps(cfg, t);
    AllMeanJoin(ops, ats, env, Under(prefix, EnvEdits(cfg, t)));
    ops, ats := ops + env, ats + Under(prefix, EnvEdits(cfg, t));
    var mark := Op("add", ANNOTATIONS_PATH + Escape(ANN_INJECTED), Some(Str(cfg.agentImage)));
    MarkMeans(cfg);
    AllMeanAppend(ops, ats, mark, At(ANNOTATIONS + [ANN_INJECTED], Add(Str(cfg.agentImage))));
    ops, ats := ops + [mark], ats + [At(ANNOTATIONS + [ANN_INJECTED], Add(Str(cfg.agentImage)))];
    EditsAssemble(raw, pod, cfg, t);
    PatchIsEdits(raw, ops, ats);
    EditsRewrite(raw, cfg, t);
  }

  method BuildInjection(raw: Json, cfg: InjectorConfig) returns (r: Result)
    ensures Decide(raw).Malformed? ==> r == DecodeError
    ensures Decide(raw).Untouched? ==> r == Result([], None)
    ensures Decide(raw).Skipped? ==> r == Result([], Some(Decide(raw).warning))
    ensures Decide(raw).Wrapped? ==>
              && r.Result? && r.warning == None && r.patch != []
              && Shaped(raw, Decide(raw).target)
              && ApplyPatch(raw, r.patch) == Some(Rewritten(raw, cfg, Decide(raw).target))
              && ValuesWritten(raw, cfg, Decide(raw).target, ApplyPatch(raw, r.patch).value)
  {
    var decoded := Decode(raw);
    if decoded == None {
      return DecodeError;
    }
    var cj := decoded.value;
    if Annotation(cj, ANN_INJECT) != "true" {
      return Result([], None);
    }
    if Annotation(cj, ANN_INJECTED) != "" {
      return Result([], None);
    }
    var installed := HasInstaller(cj.pod.initNames);
    if installed {
      return Result([], None);
    }
    var envKey := Annotation(cj, ANN_PING_KEY_ENV);
    if envKey == "" {
      return Result([], Some(PingKeyEnvMissing));
    }
    var index := FindTarget(cj.pod.containers, Annotation(cj, ANN_CONTAINER));
    if index < 0 {
      return Result([], Some(NoContainer));
    }
    var target := cj.pod.containers[index];
    if |target.command| == 0 {
      return Result([], Some(NoCommand(target.name)));
    }
    var t := Target(index, target, envKey, Annotation(cj, ANN_MODE) == "prebaked");
    WrappedIsShaped(raw);
    DescendIsGet(raw, POD);
    var ops := BuildOps(raw, cj.pod, cfg, t);
    AllWritten(raw, cfg, t);
    return Result(ops, None);
  }
}
