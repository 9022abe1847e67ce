/** What a wrapped CronJob decodes to, when injection is idempotent, and what it leaves alone. */
module InjectionTheorems {
  import opened Wrappers
  import opened JsonPointer
  import opened JsonPatch
  import opened CronJobs
  import opened Injection

  // ----- When a CronJob is wrapped -----

  /** An annotation as the document has it; empty when it is absent or null. */
  function AnnotationText(raw: Json, key: string): string {
    var v := Get(raw, ["metadata", "annotations"] + [key]);
    if v.Some? && v.value.Str? then v.value.s else ""
  }

  lemma {:induction false} NothingBelowNull(j: Json, path: seq<string>, key: string)
    requires Descend(j, path) == Some(Null)
    ensures Get(j, path + [key]) == None
    decreases |path|
  {
    if path == [] {
    } else {
      assert (path + [key])[1..] == path[1..] + [key];
      if j.Obj? && path[0] in j.fields {
        NothingBelowNull(j.fields[path[0]], path[1..], key);
      }
    }
  }

  lemma {:induction false} AnnotationRead(raw: Json, key: string)
    requires Decode(raw).Some?
    ensures Annotation(Decode(raw).value, key) == AnnotationText(raw, key)
  {
    var ann := Descend(raw, ANNOTATIONS).value;
    if ann == Null {
      NothingBelowNull(raw, ANNOTATIONS, key);
    } else {
      DescendIsGet(raw, ANNOTATIONS);
      GetAppend(raw, ANNOTATIONS, [key]);
      assert [key][1..] == [];
    }
  }

  lemma {:induction false} AnnotationsRead(raw: Json)
    requires Decode(raw).Some?
    ensures var cj := Decode(raw).value;
            && Annotation(cj, ANN_INJECT) == AnnotationText(raw, "crond.io/inject")
            && Annotation(cj, ANN_INJECTED) == AnnotationText(raw, "crond.io/injected")
            && Annotation(cj, ANN_PING_KEY_ENV) == AnnotationText(raw, "crond.io/ping-key-env")
            && Annotation(cj, ANN_CONTAINER) == AnnotationText(raw, "crond.io/container")
            && Annotation(cj, ANN_MODE) == AnnotationText(raw, "crond.io/mode")
  {
    AnnotationRead(raw, ANN_INJECT);
    AnnotationRead(raw, ANN_INJECTED);
    AnnotationRead(raw, ANN_PING_KEY_ENV);
    AnnotationRead(raw, ANN_CONTAINER);
    AnnotationRead(raw, ANN_MODE);
  }

  /** The first container with the annotated name, or the first one when there is no annotation. */
  ghost predicate IsTarget(containers: seq<Container>, name: string, i: nat) {
    && i < |containers|
    && (if name == "" then i == 0
        else containers[i].name == name && forall j | 0 <= j < i :: containers[j].name != name)
  }

  /** Opted in, not marked, and without the installer. */
  ghost predicate Open(raw: Json, pod: Pod) {
    && AnnotationText(raw, "crond.io/inject") == "true"
    && AnnotationText(raw, "crond.io/injected") == ""
    && forall i | 0 <= i < |pod.initNames| :: pod.initNames[i] != "crond-agent-installer"
  }

  /** `TargetIndex` finds the target when there is one, and there is at most one. */
  lemma {:induction false} TargetUnique(containers: seq<Container>, name: string)
    ensures var r := TargetIndex(containers, name);
            && (r >= 0 ==> IsTarget(containers, name, r))
            && forall i: nat | IsTarget(containers, name, i) :: i == r
  {
  }

  lemma {:induction false} WrapsOn(cj: CronJob)
    ensures var d, key, name := DecideOn(cj), Annotation(cj, ANN_PING_KEY_ENV), Annotation(cj, ANN_CONTAINER);
            var open := Annotation(cj, ANN_INJECT) == "true" && Annotation(cj, ANN_INJECTED) == "" && INSTALLER !in cj.pod.initNames;
            && !d.Malformed?
            && (d.Wrapped? <==>
                  open && key != "" && exists i: nat :: IsTarget(cj.pod.containers, name, i) && cj.pod.containers[i].command != [])
            && (d.Wrapped? ==>
                  && IsTarget(cj.pod.containers, name, d.target.index)
                  && d.target.container == cj.pod.containers[d.target.index]
                  && d.target.envKey == key
                  && (d.target.prebaked <==> Annotation(cj, ANN_MODE) == "prebaked"))
  {
    TargetUnique(cj.pod.containers, Annotation(cj, ANN_CONTAINER));
  }

  lemma {:induction false} DeclinesOn(cj: CronJob)
    ensures var d, key, name := DecideOn(cj), Annotation(cj, ANN_PING_KEY_ENV), Annotation(cj, ANN_CONTAINER);
            var open := Annotation(cj, ANN_INJECT) == "true" && Annotation(cj, ANN_INJECTED) == "" && INSTALLER !in cj.pod.initNames;
            && (d == Untouched <==> !open)
            && (d == Skipped(PingKeyEnvMissing) <==> open && key == "")
            && (d == Skipped(NoContainer) <==> open && key != "" && forall i: nat :: !IsTarget(cj.pod.containers, name, i))
            && (forall i: nat | IsTarget(cj.pod.containers, name, i) ::
                  d == Skipped(NoCommand(cj.pod.containers[i].name))
                  <==> open && key != "" && cj.pod.containers[i].command == [])
  {
    TargetUnique(cj.pod.containers, Annotation(cj, ANN_CONTAINER));
  }

  /** The decision to wrap, and what it settles, from the document's own annotations. */
  lemma {:induction false} WrapsExactlyWhen(raw: Json)
    ensures Decide(raw) == Malformed <==> Decode(raw) == None
    ensures Decode(raw).Some? ==>
              var pod, d := Decode(raw).value.pod, Decide(raw);
              && (d.Wrapped? <==>
                    && Open(raw, pod) && AnnotationText(raw, "crond.io/ping-key-env") != ""
                    && exists i: nat :: IsTarget(pod.containers, AnnotationText(raw, "crond.io/container"), i)
                                        && pod.containers[i].command != [])
              && (d.Wrapped? ==>
                    && IsTarget(pod.containers, AnnotationText(raw, "crond.io/container"), d.target.index)
                    && d.target.container == pod.containers[d.target.index]
                    && d.target.envKey == AnnotationText(raw, "crond.io/ping-key-env")
                    && (d.target.prebaked <==> AnnotationText(raw, "crond.io/mode") == "prebaked"))
  {
    if Decode(raw).Some? {
      WrapsOn(Decode(raw).value);
      AnnotationsRead(raw);
    }
  }

  /** When a CronJob is left alone, and with which warning. */
  lemma {:induction false} DeclinesExactlyWhen(raw: Json)
    ensures Decode(raw).Some? ==>
              var pod, d := Decode(raw).value.pod, Decide(raw);
              var key, name := AnnotationText(raw, "crond.io/ping-key-env"), AnnotationText(raw, "crond.io/container");
              && (d == Untouched <==> !Open(raw, pod))
              && (d == Skipped(PingKeyEnvMissing) <==> Open(raw, pod) && key == "")
              && (d == Skipped(NoContainer) <==>
                    Open(raw, pod) && key != "" && forall i: nat :: !IsTarget(pod.containers, name, i))
              && (forall i: nat | IsTarget(pod.containers, name, i) ::
                    d == Skipped(NoCommand(pod.containers[i].name))
                    <==> Open(raw, pod) && key != "" && pod.containers[i].command == [])
  {
    if Decode(raw).Some? {
      AnnotationsRead(raw);
      DeclinesOn(Decode(raw).value);
    }
  }

  // ----- The wrapped CronJob, decoded -----

  function WrappedContainer(cfg: InjectorConfig, t: Target): Container {
    Container(t.container.name, WrappedArgv(cfg, t), [], t.container.env + InjectedEnv(cfg, t),
              if t.prebaked then t.container.mounts else t.container.mounts + [Mount(cfg)])
  }

  function WrappedPod(pod: Pod, cfg: InjectorConfig, t: Target): Pod
    requires t.index < |pod.containers|
  {
    Pod(if t.prebaked then pod.volumes else pod.volumes + [Volume(cfg)],
        if t.prebaked then pod.initNames else pod.initNames + [INSTALLER],
        pod.containers[t.index := WrappedContainer(cfg, t)])
  }

  lemma {:induction false} ContainerDecodes(c: Json, cfg: InjectorConfig, t: Target)
    requires c.Obj? && DecodeContainer(c) == Some(t.container)
    ensures DecodeContainer(RewriteContainer(c, cfg, t)) == Some(WrappedContainer(cfg, t))
  {
    var r := RewriteContainer(c, cfg, t);
    StringsDecode(WrappedArgv(cfg, t));
    assert Field(r, "name") == Field(c, "name");
    assert Field(r, "command") == Arr(Strings(WrappedArgv(cfg, t)));
    assert Field(r, "env") == Arr(t.container.env + InjectedEnv(cfg, t));
    assert Field(r, "volumeMounts")
        == if t.prebaked then Field(c, "volumeMounts") else Arr(t.container.mounts + [Mount(cfg)]);
    assert DecodeStrings(Field(r, "args")) == Some([]) by {
      if t.container.args == [] {
        assert Field(r, "args") == Field(c, "args");
      } else {
        assert Field(r, "args") == Null;
      }
    }
  }

  lemma {:induction false} InstallerNamed(cfg: InjectorConfig)
    ensures DecodeName(InitContainer(cfg)) == Some(INSTALLER)
  {
  }

  lemma {:induction false} InitsDecode(pod: Json, inits: seq<string>, cfg: InjectorConfig)
    requires DecodeEach(Field(pod, "initContainers"), DecodeName) == Some(inits)
    ensures DecodeEach(Arr(Items(pod, "initContainers") + [InitContainer(cfg)]), DecodeName)
         == Some(inits + [INSTALLER])
  {
    ListIsItems(pod, "initContainers");
    InstallerNamed(cfg);
    TraverseAppend(Items(pod, "initContainers"), DecodeName, InitContainer(cfg));
  }

  lemma {:induction false} ContainersDecode(pod: Json, containers: seq<Container>, cfg: InjectorConfig, t: Target)
    requires DecodeEach(Field(pod, "containers"), DecodeContainer) == Some(containers)
    requires t.index < |Items(pod, "containers")|
    requires var c := Items(pod, "containers")[t.index]; c.Obj? && DecodeContainer(c) == Some(t.container)
    ensures |containers| == |Items(pod, "containers")|
    ensures var items := Items(pod, "containers");
            DecodeEach(Arr(items[t.index := RewriteContainer(items[t.index], cfg, t)]), DecodeContainer)
            == Some(containers[t.index := WrappedContainer(cfg, t)])
  {
    ListIsItems(pod, "containers");
    var items := Items(pod, "containers");
    ContainerDecodes(items[t.index], cfg, t);
    TraverseUpdate(items, DecodeContainer, t.index, RewriteContainer(items[t.index], cfg, t));
  }

  lemma {:induction false} PodDecodes(tree: Json, pod: Pod, cfg: InjectorConfig, t: Target)
    requires tree.Obj? && DecodePod(tree) == Some(pod)
    requires t.index < |Items(tree, "containers")|
    requires var c := Items(tree, "containers")[t.index]; c.Obj? && DecodeContainer(c) == Some(t.container)
    ensures t.index < |pod.containers|
    ensures DecodePod(RewritePod(tree, cfg, t)) == Some(WrappedPod(pod, cfg, t))
  {
    var r := RewritePod(tree, cfg, t);
    var items := Items(tree, "containers");
    ListIsItems(tree, "volumes");
    InitsDecode(tree, pod.initNames, cfg);
    ContainersDecode(tree, pod.containers, cfg, t);
    assert Field(r, "containers") == Arr(items[t.index := RewriteContainer(items[t.index], cfg, t)]);
    if t.prebaked {
      assert Field(r, "volumes") == Field(tree, "volumes");
      assert Field(r, "initContainers") == Field(tree, "initContainers");
    } else {
      assert Field(r, "volumes") == Arr(pod.volumes + [Volume(cfg)]);
      assert Field(r, "initContainers") == Arr(Items(tree, "initContainers") + [InitContainer(cfg)]);
    }
  }

  lemma {:induction false} AnnotationsDecode(ann: Json, key: string, v: string)
    requires ann.Obj? && DecodeAnnotations(ann).Some?
    ensures DecodeAnnotations(Obj(ann.fields[key := Str(v)])) == Some(DecodeAnnotations(ann).value[key := v])
  {
    var fields := ann.fields[key := Str(v)];
    assert forall k | k in fields :: DecodeString(fields[k]).Some?;
    var r := DecodeAnnotations(Obj(fields)).value;
    assert r == DecodeAnnotations(ann).value[key := v];
  }

  /** Every field the injector reads, after the patch. */
  lemma {:induction false} RewrittenDecodes(raw: Json, cfg: InjectorConfig)
    requires Decide(raw).Wrapped?
    ensures var t, cj := Decide(raw).target, Decode(raw).value;
            && Shaped(raw, t) && t.index < |cj.pod.containers|
            && Decode(Rewritten(raw, cfg, t))
               == Some(CronJob(cj.annotations[ANN_INJECTED := cfg.agentImage], WrappedPod(cj.pod, cfg, t)))
  {
    var t, cj := Decide(raw).target, Decode(raw).value;
    WrappedIsShaped(raw);
    var ann, pod := Get(raw, ANNOTATIONS).value, Get(raw, POD).value;
    ReadsBack(raw);
    PodDecodes(pod, cj.pod, cfg, t);
    AnnotationsDecode(ann, ANN_INJECTED, cfg.agentImage);
    TwoPuts(raw, RewritePod(pod, cfg, t), Obj(ann.fields[ANN_INJECTED := Str(cfg.agentImage)]));
  }

  /** What decoding read is what the two pointers name. */
  lemma {:induction false} ReadsBack(raw: Json)
    requires Decide(raw).Wrapped?
    requires Shaped(raw, Decide(raw).target)
    ensures Descend(raw, ANNOTATIONS) == Get(raw, ANNOTATIONS) && Descend(raw, POD) == Get(raw, POD)
    ensures DecodeAnnotations(Get(raw, ANNOTATIONS).value) == Some(Decode(raw).value.annotations)
    ensures DecodePod(Get(raw, POD).value) == Some(Decode(raw).value.pod)
  {
    assert Descend(raw, ANNOTATIONS).value != Null;
    assert Descend(raw, POD).value != Null;
    DescendIsGet(raw, ANNOTATIONS);
    DescendIsGet(raw, POD);
  }

  lemma {:induction false} TwoPuts(raw: Json, pod: Json, ann: Json)
    requires Descend(raw, ANNOTATIONS).Some? && Descend(raw, ANNOTATIONS).value != Null
    requires Descend(raw, POD).Some? && Descend(raw, POD).value != Null
    requires pod != Null && ann != Null
    ensures Get(raw, POD).Some?
    ensures var d := Put(raw, POD, pod);
            && Get(d, ANNOTATIONS).Some?
            && Descend(Put(d, ANNOTATIONS, ann), POD) == Some(pod)
            && Descend(Put(d, ANNOTATIONS, ann), ANNOTATIONS) == Some(ann)
  {
    DescendIsGet(raw, POD);
    DescendPut(raw, POD, pod);
    DescendPutOther(raw, POD, pod, ANNOTATIONS);
    var d := Put(raw, POD, pod);
    DescendIsGet(d, ANNOTATIONS);
    DescendPut(d, ANNOTATIONS, ann);
    DescendPutOther(d, ANNOTATIONS, ann, POD);
  }

  // ----- Idempotence -----

  lemma {:induction false} KeysDiffer()
    ensures ANN_INJECT != ANN_INJECTED && ANN_PING_KEY_ENV != ANN_INJECTED && ANN_CONTAINER != ANN_INJECTED
  {
    assert |ANN_INJECT| != |ANN_INJECTED| && |ANN_PING_KEY_ENV| != |ANN_INJECTED|;
    assert |ANN_CONTAINER| != |ANN_INJECTED|;
  }

  function Marked(cj: CronJob, v: string): CronJob {
    cj.(annotations := cj.annotations[ANN_INJECTED := v])
  }

  lemma {:induction false} AnnotationUpdated(cj: CronJob, v: string, key: string)
    ensures Annotation(Marked(cj, v), key) == if key == ANN_INJECTED then v else Annotation(cj, key)
  {
  }

  lemma {:induction false} UntouchedByMarker(cj: CronJob)
    requires Annotation(cj, ANN_INJECT) == "true"
    ensures Annotation(cj, ANN_INJECTED) != "" || INSTALLER in cj.pod.initNames ==> DecideOn(cj) == Untouched
    ensures Annotation(cj, ANN_INJECTED) == "" && INSTALLER !in cj.pod.initNames ==> DecideOn(cj) != Untouched
  {
  }

  /**
   Running the injector on its own output does nothing, unless both guards are missing: pre-baked
   mode adds no installer, and an empty image leaves an empty marker. `Validate` rejects that image.
   */
  lemma {:induction false} IdempotentIff(raw: Json, cfg: InjectorConfig)
    requires Decide(raw).Wrapped?
    ensures Shaped(raw, Decide(raw).target)
    ensures Decide(Rewritten(raw, cfg, Decide(raw).target)) == Untouched
            <==> cfg.agentImage != "" || !Decide(raw).target.prebaked
  {
    var t, cj := Decide(raw).target, Decode(raw).value;
    RewrittenDecodes(raw, cfg);
    GuardsAfter(cj, cfg, t);
  }

  lemma {:induction false} GuardsAfter(cj: CronJob, cfg: InjectorConfig, t: Target)
    requires DecideOn(cj).Wrapped? && t.index < |cj.pod.containers|
    ensures DecideOn(CronJob(cj.annotations[ANN_INJECTED := cfg.agentImage], WrappedPod(cj.pod, cfg, t))) == Untouched
            <==> cfg.agentImage != "" || !t.prebaked
  {
    var after := CronJob(cj.annotations[ANN_INJECTED := cfg.agentImage], WrappedPod(cj.pod, cfg, t));
    KeysDiffer();
    AnnotationUpdated(cj, cfg.agentImage, ANN_INJECT);
    AnnotationUpdated(cj, cfg.agentImage, ANN_INJECTED);
    WrappedGuards(cj);
    InstallerAdded(cj.pod, cfg, t);
    UntouchedByMarker(after);
  }

  lemma {:induction false} InstallerAdded(pod: Pod, cfg: InjectorConfig, t: Target)
    requires t.index < |pod.containers| && INSTALLER !in pod.initNames
    ensures INSTALLER in WrappedPod(pod, cfg, t).initNames <==> !t.prebaked
  {
    if !t.prebaked {
      assert WrappedPod(pod, cfg, t).initNames[|pod.initNames|] == INSTALLER;
    }
  }

  lemma {:induction false} WrappedGuards(cj: CronJob)
    requires DecideOn(cj).Wrapped?
    ensures Annotation(cj, ANN_INJECT) == "true" && INSTALLER !in cj.pod.initNames
  {
  }

  // ----- Everything else stays -----

  function ContainerPath(t: Target, field: string): seq<string> {
    POD + ["containers", Itoa(t.index), field]
  }

  /** `q` parts ways with every location the injection writes or extends. */
  ghost predicate Apart(t: Target, q: seq<string>) {
    && Diverge(ANNOTATIONS + [ANN_INJECTED], q)
    && Diverge(ContainerPath(t, "command"), q)
    && Diverge(ContainerPath(t, "env"), q)
    && (t.container.args != [] ==> Diverge(ContainerPath(t, "args"), q))
    && (!t.prebaked ==>
          && Diverge(POD + ["volumes"], q)
          && Diverge(POD + ["initContainers"], q)
          && Diverge(ContainerPath(t, "volumeMounts"), q))
  }

  /** Two paths that part ways do so within a given prefix, or after it. */
  lemma {:induction false} DivergeSplit(p: seq<string>, s: seq<string>, q: seq<string>)
    requires Diverge(p + s, q)
    ensures Diverge(p, q) || (|p| <= |q| && q[..|p|] == p && Diverge(s, q[|p|..]))
    decreases |p|
  {
    if p == [] {
      assert p + s == s && q[0..] == q;
    } else {
      assert (p + s)[0] == p[0] && (p + s)[1..] == p[1..] + s;
      if p[0] == q[0] {
        DivergeSplit(p[1..], s, q[1..]);
        assert |p| <= |q| ==> q[..|p|] == [q[0]] + q[1..][..|p| - 1];
        assert |p| <= |q| ==> q[|p|..] == q[1..][|p| - 1..];
        assert p == [p[0]] + p[1..];
      }
    }
  }

  lemma {:induction false} DivergePrefix(p: seq<string>, r: seq<string>)
    ensures !Diverge(p, p + r)
    decreases |p|
  {
    if p == [] {
    } else {
      assert (p + r)[1..] == p[1..] + r;
      DivergePrefix(p[1..], r);
    }
  }

  /** After the prefix, when that is where they part. */
  lemma {:induction false} DivergeAfter(p: seq<string>, s: seq<string>, r: seq<string>)
    requires Diverge(p + s, p + r)
    ensures Diverge(s, r)
  {
    DivergePrefix(p, r);
    DivergeSplit(p, s, p + r);
    assert (p + r)[|p|..] == r;
  }

  lemma {:induction false} ContainerFrame(c: Json, cfg: InjectorConfig, t: Target, r: seq<string>)
    requires c.Obj? && r != [] && r[0] != "command" && r[0] != "env"
    requires t.container.args != [] ==> r[0] != "args"
    requires !t.prebaked ==> r[0] != "volumeMounts"
    ensures Get(RewriteContainer(c, cfg, t), r) == Get(c, r)
  {
    assert Child(RewriteContainer(c, cfg, t), r[0]) == Child(c, r[0]);
  }

  lemma {:induction false} PodFieldFrame(pod: Json, cfg: InjectorConfig, t: Target, r: seq<string>)
    requires pod.Obj? && t.index < |Items(pod, "containers")| && Items(pod, "containers")[t.index].Obj?
    requires r != [] && r[0] != "containers"
    requires !t.prebaked ==> r[0] != "volumes" && r[0] != "initContainers"
    ensures Get(RewritePod(pod, cfg, t), r) == Get(pod, r)
  {
    assert Child(RewritePod(pod, cfg, t), r[0]) == Child(pod, r[0]);
  }

  lemma {:induction false} OtherContainerFrame(items: seq<Json>, index: nat, c: Json, r: seq<string>)
    requires index < |items| && r != [] && r[0] != Itoa(index)
    ensures Get(Arr(items[index := c]), r) == Get(Arr(items), r)
  {
    ItoaParses(index);
    SiblingKept(Arr(items), Itoa(index), c, r[0]);
    assert SetChild(Arr(items), Itoa(index), c) == Arr(items[index := c]);
  }

  lemma {:induction false} SameContainerGet(items: seq<Json>, index: nat, r: seq<string>)
    requires index < |items| && r != [] && r[0] == Itoa(index)
    ensures Get(Arr(items), r) == Get(items[index], r[1..])
  {
    ItoaParses(index);
  }

  lemma {:induction false} ContainersFrame(pod: Json, cfg: InjectorConfig, t: Target, r: seq<string>)
    requires pod.Obj? && t.index < |Items(pod, "containers")| && Items(pod, "containers")[t.index].Obj?
    requires |r| >= 2 && r[0] == "containers"
    requires r[1] == Itoa(t.index) ==>
               && |r| >= 3 && r[2] != "command" && r[2] != "env"
               && (t.container.args != [] ==> r[2] != "args") && (!t.prebaked ==> r[2] != "volumeMounts")
    ensures Get(RewritePod(pod, cfg, t), r) == Get(pod, r)
  {
    var items := Items(pod, "containers");
    var c := RewriteContainer(items[t.index], cfg, t);
    assert Get(RewritePod(pod, cfg, t), r) == Get(Arr(items[t.index := c]), r[1..]);
    assert Get(pod, r) == Get(Arr(items), r[1..]);
    if r[1] == Itoa(t.index) {
      SameContainerGet(items[t.index := c], t.index, r[1..]);
      SameContainerGet(items, t.index, r[1..]);
      ContainerFrame(items[t.index], cfg, t, r[1..][1..]);
    } else {
      OtherContainerFrame(items, t.index, c, r[1..]);
    }
  }

  lemma {:induction false} FieldApart(t: Target, field: string, r: seq<string>)
    requires Diverge(ContainerPath(t, field), POD + r)
    ensures Diverge(["containers", Itoa(t.index), field], r)
    ensures r != []
    ensures r[0] == "containers" ==> |r| >= 2
    ensures r[0] == "containers" && r[1] == Itoa(t.index) ==> |r| >= 3 && r[2] != field
  {
    DivergeAfter(POD, ["containers", Itoa(t.index), field], r);
    DivergeThree("containers", Itoa(t.index), field, r);
  }

  lemma {:induction false} DivergeThree(a: string, b: string, c: string, r: seq<string>)
    requires Diverge([a, b, c], r)
    ensures r != []
    ensures r[0] == a ==> |r| >= 2
    ensures r[0] == a && r[1] == b ==> |r| >= 3 && r[2] != c
  {
    assert [a, b, c][1..] == [b, c] && [b, c][1..] == [c] && [c][1..] == [];
    if r[0] == a {
      assert Diverge([b, c], r[1..]);
      if r[1] == b {
        assert Diverge([c], r[1..][1..]);
        assert r[1..][1..] == r[2..] && !Diverge([], r[2..][1..]);
      }
    }
  }

  lemma {:induction false} InPodFrame(pod: Json, cfg: InjectorConfig, t: Target, r: seq<string>)
    requires pod.Obj? && t.index < |Items(pod, "containers")| && Items(pod, "containers")[t.index].Obj?
    requires Apart(t, POD + r)
    ensures Get(RewritePod(pod, cfg, t), r) == Get(pod, r)
  {
    FieldApart(t, "command", r);
    FieldApart(t, "env", r);
    if t.container.args != [] {
      FieldApart(t, "args", r);
    }
    if !t.prebaked {
      FieldApart(t, "volumeMounts", r);
      DivergeAfter(POD, ["volumes"], r);
      DivergeAfter(POD, ["initContainers"], r);
      assert ["volumes"][1..] == [] && ["initContainers"][1..] == [];
    }
    if r[0] == "containers" {
      ContainersFrame(pod, cfg, t, r);
    } else {
      PodFieldFrame(pod, cfg, t, r);
    }
  }

  lemma {:induction false} WrappedFrame(raw: Json, cfg: InjectorConfig, t: Target, q: seq<string>)
    requires Shaped(raw, t) && Apart(t, q)
    ensures Get(Put(raw, POD, RewritePod(Get(raw, POD).value, cfg, t)), q) == Get(raw, q)
  {
    var pod := Get(raw, POD).value;
    DivergeSplit(POD, ["containers", Itoa(t.index), "command"], q);
    if Diverge(POD, q) {
      PutFrame(raw, POD, RewritePod(pod, cfg, t), q);
    } else {
      var r := q[|POD|..];
      assert q == POD + r;
      InPodFrame(pod, cfg, t, r);
      PutInside(raw, POD, RewritePod(pod, cfg, t), r);
      GetAppend(raw, POD, r);
    }
  }

  lemma {:induction false} ApartFrame(raw: Json, cfg: InjectorConfig, t: Target, q: seq<string>)
    requires Shaped(raw, t) && Apart(t, q)
    ensures Get(Rewritten(raw, cfg, t), q) == Get(raw, q)
  {
    var wrapped := Put(raw, POD, RewritePod(Get(raw, POD).value, cfg, t));
    AnnotationsOutsidePod(raw, RewritePod(Get(raw, POD).value, cfg, t));
    WrappedFrame(raw, cfg, t, q);
    MarkFrame(wrapped, Str(cfg.agentImage), q);
  }

  lemma {:induction false} MarkFrame(doc: Json, v: Json, q: seq<string>)
    requires Get(doc, ANNOTATIONS).Some? && Get(doc, ANNOTATIONS).value.Obj?
    requires Diverge(ANNOTATIONS + [ANN_INJECTED], q)
    ensures Get(Put(doc, ANNOTATIONS, Obj(Get(doc, ANNOTATIONS).value.fields[ANN_INJECTED := v])), q) == Get(doc, q)
  {
    FieldFrame(doc, ANNOTATIONS, ANN_INJECTED, v, q);
  }

  /** Setting one field of an object changes nothing beside it. */
  lemma {:induction false} FieldFrame(doc: Json, p: seq<string>, name: string, v: Json, q: seq<string>)
    requires Get(doc, p).Some? && Get(doc, p).value.Obj?
    requires Diverge(p + [name], q)
    ensures Get(Put(doc, p, Obj(Get(doc, p).value.fields[name := v])), q) == Get(doc, q)
  {
    var o := Get(doc, p).value;
    var marked := Obj(o.fields[name := v]);
    DivergeSplit(p, [name], q);
    if Diverge(p, q) {
      PutFrame(doc, p, marked, q);
    } else {
      var r := q[|p|..];
      assert q == p + r;
      PutInside(doc, p, marked, r);
      GetAppend(doc, p, r);
      assert [name][1..] == [];
      assert Child(marked, r[0]) == Child(o, r[0]);
    }
  }

  // ----- What the arrays held stays where it was -----

  predicate IsPodItem(raw: Json, field: string, i: nat)
    requires Get(raw, POD).Some?
  {
    (field == "volumes" || field == "initContainers") && i < |Items(Get(raw, POD).value, field)|
  }

  ghost predicate IsContainerItem(raw: Json, t: Target, field: string, i: nat)
    requires Shaped(raw, t)
  {
    && (field == "env" || field == "volumeMounts")
    && i < |Items(Items(Get(raw, POD).value, "containers")[t.index], field)|
  }

  /** Below the pod path a pointer reads the rewritten pod. */
  lemma {:induction false} GetInPod(raw: Json, cfg: InjectorConfig, t: Target, r: seq<string>)
    requires Shaped(raw, t)
    ensures Get(Rewritten(raw, cfg, t), POD + r) == Get(RewritePod(Get(raw, POD).value, cfg, t), r)
    ensures Get(raw, POD + r) == Get(Get(raw, POD).value, r)
  {
    var pod := RewritePod(Get(raw, POD).value, cfg, t);
    var wrapped := Put(raw, POD, pod);
    AnnotationsOutsidePod(raw, pod);
    var ann := Obj(Get(raw, ANNOTATIONS).value.fields[ANN_INJECTED := Str(cfg.agentImage)]);
    assert Diverge(ANNOTATIONS, POD + r) by {
      assert (POD + r)[0] == POD[0];
    }
    PutFrame(wrapped, ANNOTATIONS, ann, POD + r);
    PutInside(raw, POD, pod, r);
    GetAppend(raw, POD, r);
  }

  /** An array that only grew at its end reads the same at its old indices. */
  lemma {:induction false} OldItem(a: Json, b: Json, field: string, i: nat, r: seq<string>)
    requires i < |Items(a, field)| && Items(a, field) <= Items(b, field)
    ensures Get(b, [field, Itoa(i)] + r) == Get(a, [field, Itoa(i)] + r)
  {
    ItoaParses(i);
    var path := [field, Itoa(i)] + r;
    assert path[1..][0] == Itoa(i);
    assert Child(Arr(Items(a, field)), Itoa(i)) == Child(Arr(Items(b, field)), Itoa(i));
  }

  lemma {:induction false} PodArrayGrows(pod: Json, cfg: InjectorConfig, t: Target, field: string)
    requires pod.Obj? && t.index < |Items(pod, "containers")| && Items(pod, "containers")[t.index].Obj?
    requires field == "volumes" || field == "initContainers"
    ensures Items(pod, field) <= Items(RewritePod(pod, cfg, t), field)
  {
  }

  lemma {:induction false} PathAssoc(p: seq<string>, q: seq<string>, r: seq<string>)
    ensures p + q + r == p + (q + r)
  {
  }

  /** The volumes and init containers that were there can be read where they were. */
  lemma {:induction false} PodItemsKept(raw: Json, cfg: InjectorConfig, t: Target, field: string, i: nat, r: seq<string>)
    requires Shaped(raw, t) && IsPodItem(raw, field, i)
    ensures Get(Rewritten(raw, cfg, t), POD + [field, Itoa(i)] + r) == Get(raw, POD + [field, Itoa(i)] + r)
  {
    var pod := Get(raw, POD).value;
    PodArrayGrows(pod, cfg, t, field);
    OldItem(pod, RewritePod(pod, cfg, t), field, i, r);
    GetInPod(raw, cfg, t, [field, Itoa(i)] + r);
    PathAssoc(POD, [field, Itoa(i)], r);
  }

  lemma {:induction false} ContainerArrayGrows(c: Json, cfg: InjectorConfig, t: Target, field: string)
    requires c.Obj? && DecodeContainer(c) == Some(t.container)
    requires field == "env" || field == "volumeMounts"
    ensures Items(c, field) <= Items(RewriteContainer(c, cfg, t), field)
  {
    ListIsItems(c, field);
  }

  lemma {:induction false} GetInContainer(pod: Json, cfg: InjectorConfig, t: Target, r: seq<string>)
    requires pod.Obj? && t.index < |Items(pod, "containers")| && Items(pod, "containers")[t.index].Obj?
    ensures var c, path := Items(pod, "containers")[t.index], ["containers", Itoa(t.index)] + r;
            Get(RewritePod(pod, cfg, t), path) == Get(RewriteContainer(c, cfg, t), r) && Get(pod, path) == Get(c, r)
  {
    var c, after := Items(pod, "containers")[t.index], RewritePod(pod, cfg, t);
    assert Items(after, "containers")[t.index] == RewriteContainer(c, cfg, t);
    ContainerAt(pod, t.index, c);
    ContainerAt(after, t.index, RewriteContainer(c, cfg, t));
    GetAppend(pod, ["containers", Itoa(t.index)], r);
    GetAppend(after, ["containers", Itoa(t.index)], r);
  }

  /** So can the variables and mounts of the target container. */
  lemma {:induction false} ContainerItemsKept(raw: Json, cfg: InjectorConfig, t: Target, field: string, i: nat, r: seq<string>)
    requires Shaped(raw, t) && IsContainerItem(raw, t, field, i)
    ensures Get(Rewritten(raw, cfg, t), ContainerPath(t, field) + [Itoa(i)] + r)
         == Get(raw, ContainerPath(t, field) + [Itoa(i)] + r)
  {
    var pod := Get(raw, POD).value;
    var c := Items(pod, "containers")[t.index];
    ContainerArrayGrows(c, cfg, t, field);
    OldItem(c, RewriteContainer(c, cfg, t), field, i, r);
    GetInContainer(pod, cfg, t, [field, Itoa(i)] + r);
    GetInPod(raw, cfg, t, ["containers", Itoa(t.index)] + ([field, Itoa(i)] + r));
    ItemPath(POD, "containers", Itoa(t.index), field, Itoa(i), r);
  }

  lemma {:induction false} ItemPath(p: seq<string>, a: string, b: string, c: string, d: string, r: seq<string>)
    ensures p + [a, b, c] + [d] + r == p + ([a, b] + ([c, d] + r))
  {
    assert [a, b, c] + [d] == [a, b] + [c, d];
  }

  /** `q` leads into an item that an array extended by the injection already held. */
  ghost predicate IntoOldItem(raw: Json, t: Target, q: seq<string>)
    requires Shaped(raw, t)
  {
    exists field: string, i: nat, r: seq<string> ::
      || (IsPodItem(raw, field, i) && q == POD + [field, Itoa(i)] + r)
      || (IsContainerItem(raw, t, field, i) && q == ContainerPath(t, field) + [Itoa(i)] + r)
  }

  /** Every other pointer, and every pointer into what the arrays held, reads the same before and after. */
  lemma {:induction false} NothingElseChanges(raw: Json, cfg: InjectorConfig, t: Target, q: seq<string>)
    requires Shaped(raw, t) && (Apart(t, q) || IntoOldItem(raw, t, q))
    ensures Get(Rewritten(raw, cfg, t), q) == Get(raw, q)
  {
    if Apart(t, q) {
      ApartFrame(raw, cfg, t, q);
    } else {
      var field: string, i: nat, r: seq<string> :|
        || (IsPodItem(raw, field, i) && q == POD + [field, Itoa(i)] + r)
        || (IsContainerItem(raw, t, field, i) && q == ContainerPath(t, field) + [Itoa(i)] + r);
      if IsPodItem(raw, field, i) && q == POD + [field, Itoa(i)] + r {
        PodItemsKept(raw, cfg, t, field, i, r);
      } else {
        ContainerItemsKept(raw, cfg, t, field, i, r);
      }
    }
  }
}
