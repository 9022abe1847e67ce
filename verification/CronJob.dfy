/** The subset of a CronJob that injection reads, decoded from a JSON tree. */
module CronJobs {
  import opened Wrappers
  import opened JsonPatch

  datatype Container = Container(
    name: string, command: seq<string>, args: seq<string>, env: seq<Json>, mounts: seq<Json>)

  datatype Pod = Pod(volumes: seq<Json>, initNames: seq<string>, containers: seq<Container>)

  datatype CronJob = CronJob(annotations: map<string, string>, pod: Pod)

  const POD: seq<string> := ["spec", "jobTemplate", "spec", "template", "spec"]
  const ANNOTATIONS: seq<string> := ["metadata", "annotations"]

  // ----- Decoding: null and absent leave the zero value, any other mismatch is an error -----

  predicate Struct(j: Json) {
    j.Obj? || j.Null?
  }

  function Field(j: Json, name: string): Json {
    if j.Obj? && name in j.fields then j.fields[name] else Null
  }

  function DecodeString(j: Json): Option<string> {
    match j
    case Str(s) => Some(s)
    case Null => Some("")
    case _ => None
  }

  function DecodeList(j: Json): Option<seq<Json>> {
    match j
    case Arr(items) => Some(items)
    case Null => Some([])
    case _ => None
  }

  function Traverse<T>(items: seq<Json>, f: Json -> Option<T>): (r: Option<seq<T>>)
    ensures r.Some? <==> forall i | 0 <= i < |items| :: f(items[i]).Some?
    ensures r.Some? ==> |r.value| == |items| && forall i | 0 <= i < |items| :: f(items[i]) == Some(r.value[i])
  {
    if forall i | 0 <= i < |items| :: f(items[i]).Some?
    then Some(seq(|items|, i requires 0 <= i < |items| && f(items[i]).Some? => f(items[i]).value))
    else None
  }

  function DecodeEach<T>(j: Json, f: Json -> Option<T>): Option<seq<T>> {
    var items := DecodeList(j);
    if items == None then None else Traverse(items.value, f)
  }

  function DecodeStrings(j: Json): Option<seq<string>> {
    DecodeEach(j, DecodeString)
  }

  function DecodeName(j: Json): Option<string> {
    if Struct(j) then DecodeString(Field(j, "name")) else None
  }

  function DecodeContainer(j: Json): Option<Container> {
    if !Struct(j) then None
    else
      var name := DecodeString(Field(j, "name"));
      var command := DecodeStrings(Field(j, "command"));
      var args := DecodeStrings(Field(j, "args"));
      var env := DecodeList(Field(j, "env"));
      var mounts := DecodeList(Field(j, "volumeMounts"));
      if name.Some? && command.Some? && args.Some? && env.Some? && mounts.Some?
      then Some(Container(name.value, command.value, args.value, env.value, mounts.value))
      else None
  }

  function DecodePod(j: Json): Option<Pod> {
    if !Struct(j) then None
    else
      var volumes := DecodeList(Field(j, "volumes"));
      var inits := DecodeEach(Field(j, "initContainers"), DecodeName);
      var containers := DecodeEach(Field(j, "containers"), DecodeContainer);
      if volumes.Some? && inits.Some? && containers.Some?
      then Some(Pod(volumes.value, inits.value, containers.value))
      else None
  }

  function DecodeAnnotations(j: Json): Option<map<string, string>> {
    match j
    case Null => Some(map[])
    case Obj(fields) =>
      if forall k | k in fields :: DecodeString(fields[k]).Some?
      then Some(map k | k in fields :: DecodeString(fields[k]).value)
      else None
    case _ => None
  }

  /** Nested structs along `path`; an absent or null one decodes as its zero value. */
  function Descend(j: Json, path: seq<string>): Option<Json>
    decreases |path|
  {
    if path == [] then Some(j)
    else if Struct(j) then Descend(Field(j, path[0]), path[1..])
    else None
  }

  function Decode(raw: Json): Option<CronJob> {
    var ann := Descend(raw, ANNOTATIONS);
    var pod := Descend(raw, POD);
    if ann == None || pod == None then None
    else
      var a := DecodeAnnotations(ann.value);
      var p := DecodePod(pod.value);
      if a.Some? && p.Some? then Some(CronJob(a.value, p.value)) else None
  }

  // ----- From what was decoded back to the tree -----

  /** A non-null value was really there. */
  lemma {:induction false} DescendIsGet(j: Json, path: seq<string>)
    requires Descend(j, path).Some? && Descend(j, path).value != Null
    ensures Get(j, path) == Descend(j, path)
    decreases |path|
  {
    if path == [] {
    } else {
      DescendNonNull(j, path);
      DescendIsGet(Field(j, path[0]), path[1..]);
    }
  }

  lemma {:induction false} DescendNonNull(j: Json, path: seq<string>)
    requires path != [] && Descend(j, path).Some? && Descend(j, path).value != Null
    ensures j.Obj? && path[0] in j.fields
    decreases |path|
  {
    if |path| > 1 && Field(j, path[0]) == Null {
      DescendNull(path[1..]);
    }
  }

  lemma {:induction false} DescendNull(path: seq<string>)
    ensures Descend(Null, path) == Some(Null)
  {
    if path == [] {
    } else {
      DescendNull(path[1..]);
    }
  }

  /** Exchanging the value at `path` changes what `path` decodes. */
  lemma {:induction false} DescendPut(j: Json, path: seq<string>, v: Json)
    requires Descend(j, path).Some? && Descend(j, path).value != Null && v != Null
    ensures Get(j, path).Some? && Descend(Put(j, path, v), path) == Some(v)
    decreases |path|
  {
    DescendIsGet(j, path);
    if path == [] {
    } else {
      DescendNonNull(j, path);
      DescendPut(Field(j, path[0]), path[1..], v);
    }
  }

  /** ... and nothing outside it. */
  lemma {:induction false} DescendPutOther(j: Json, path: seq<string>, v: Json, other: seq<string>)
    requires Descend(j, path).Some? && Descend(j, path).value != Null
    requires path != [] && other != [] && path[0] != other[0]
    ensures Get(j, path).Some? && Descend(Put(j, path, v), other) == Descend(j, other)
  {
    DescendIsGet(j, path);
    DescendNonNull(j, path);
  }

  lemma {:induction false} ListIsItems(j: Json, name: string)
    requires DecodeList(Field(j, name)).Some?
    ensures Items(j, name) == DecodeList(Field(j, name)).value
  {
  }

  lemma {:induction false} TraverseUpdate<T>(items: seq<Json>, f: Json -> Option<T>, i: nat, x: Json)
    requires i < |items| && Traverse(items, f).Some? && f(x).Some?
    ensures Traverse(items[i := x], f) == Some(Traverse(items, f).value[i := f(x).value])
  {
    var r := Traverse(items[i := x], f);
    assert r.Some?;
    assert r.value == Traverse(items, f).value[i := f(x).value];
  }

  lemma {:induction false} TraverseAppend<T>(items: seq<Json>, f: Json -> Option<T>, x: Json)
    requires Traverse(items, f).Some? && f(x).Some?
    ensures Traverse(items + [x], f) == Some(Traverse(items, f).value + [f(x).value])
  {
    var r := Traverse(items + [x], f);
    assert r.Some?;
    assert r.value == Traverse(items, f).value + [f(x).value];
  }

  function Strings(ss: seq<string>): (r: seq<Json>)
    ensures |r| == |ss|
    ensures forall i | 0 <= i < |ss| :: r[i] == Str(ss[i])
  {
    seq(|ss|, i requires 0 <= i < |ss| => Str(ss[i]))
  }

  lemma {:induction false} StringsDecode(ss: seq<string>)
    ensures DecodeStrings(Arr(Strings(ss))) == Some(ss)
  {
    var r := Traverse(Strings(ss), DecodeString);
    assert r.Some?;
    assert r.value == ss;
  }

  // ----- A CronJob written out reads back -----

  function Nest(path: seq<string>, v: Json): Json {
    if path == [] then v else Obj(map[path[0] := Nest(path[1..], v)])
  }

  lemma {:induction false} DescendNest(path: seq<string>, v: Json)
    ensures Descend(Nest(path, v), path) == Some(v)
    decreases |path|
  {
    if path == [] {
    } else {
      DescendNest(path[1..], v);
    }
  }

  function Fields(names: seq<string>): (r: seq<Json>)
    ensures |r| == |names|
    ensures forall i | 0 <= i < |r| :: r[i] == Obj(map["name" := Str(names[i])])
  {
    seq(|names|, i requires 0 <= i < |names| => Obj(map["name" := Str(names[i])]))
  }

  function EncodeContainer(c: Container): Json {
    Obj(map["name" := Str(c.name), "command" := Arr(Strings(c.command)), "args" := Arr(Strings(c.args)),
            "env" := Arr(c.env), "volumeMounts" := Arr(c.mounts)])
  }

  function EncodeEach(cs: seq<Container>): (r: seq<Json>)
    ensures |r| == |cs|
    ensures forall i | 0 <= i < |r| :: r[i] == EncodeContainer(cs[i])
  {
    seq(|cs|, i requires 0 <= i < |cs| => EncodeContainer(cs[i]))
  }

  function EncodePod(pod: Pod): Json {
    Obj(map["volumes" := Arr(pod.volumes), "initContainers" := Arr(Fields(pod.initNames)),
            "containers" := Arr(EncodeEach(pod.containers))])
  }

  function EncodeAnnotations(annotations: map<string, string>): Json {
    Obj(map k | k in annotations :: Str(annotations[k]))
  }

  function Encode(cj: CronJob): Json {
    Obj(map["metadata" := Nest(["annotations"], EncodeAnnotations(cj.annotations)),
            "spec" := Nest(["jobTemplate", "spec", "template", "spec"], EncodePod(cj.pod))])
  }

  lemma {:induction false} ContainerReadsBack(c: Container)
    ensures DecodeContainer(EncodeContainer(c)) == Some(c)
  {
    StringsDecode(c.command);
    StringsDecode(c.args);
  }

  lemma {:induction false} PodReadsBack(pod: Pod)
    ensures DecodePod(EncodePod(pod)) == Some(pod)
  {
    forall i | 0 <= i < |pod.containers|
      ensures DecodeContainer(EncodeEach(pod.containers)[i]) == Some(pod.containers[i])
    {
      ContainerReadsBack(pod.containers[i]);
    }
    assert Traverse(EncodeEach(pod.containers), DecodeContainer).value == pod.containers;
    assert Traverse(Fields(pod.initNames), DecodeName).value == pod.initNames;
  }

  lemma {:induction false} AnnotationsReadBack(annotations: map<string, string>)
    ensures DecodeAnnotations(EncodeAnnotations(annotations)) == Some(annotations)
  {
    assert DecodeAnnotations(EncodeAnnotations(annotations)).value == annotations;
  }

  lemma {:induction false} EncodeDescends(cj: CronJob)
    ensures Descend(Encode(cj), ANNOTATIONS) == Some(EncodeAnnotations(cj.annotations))
    ensures Descend(Encode(cj), POD) == Some(EncodePod(cj.pod))
  {
    assert ANNOTATIONS[1..] == ["annotations"] && POD[1..] == ["jobTemplate", "spec", "template", "spec"];
    DescendNest(["annotations"], EncodeAnnotations(cj.annotations));
    DescendNest(["jobTemplate", "spec", "template", "spec"], EncodePod(cj.pod));
  }

  /** Every CronJob can be written as a document that decodes to it. */
  lemma {:induction false} DecodeEncode(cj: CronJob)
    ensures Decode(Encode(cj)) == Some(cj)
  {
    EncodeDescends(cj);
    AnnotationsReadBack(cj.annotations);
    PodReadsBack(cj.pod);
  }

  // ----- Which documents decode -----

  predicate IsText(j: Json) {
    j.Str? || j.Null?
  }

  predicate IsList(j: Json) {
    j.Arr? || j.Null?
  }

  /** A list, or null, all of whose items are of one kind. */
  predicate ListOf(j: Json, kind: Json -> bool) {
    j.Null? || (j.Arr? && forall i | 0 <= i < |j.items| :: kind(j.items[i]))
  }

  /** The field is of that kind, when there is one. */
  predicate FieldIs(j: Json, name: string, kind: Json -> bool) {
    j.Obj? && name in j.fields ==> kind(j.fields[name])
  }

  predicate IsTextList(j: Json) {
    ListOf(j, IsText)
  }

  predicate IsInitContainer(j: Json) {
    (j.Obj? || j.Null?) && FieldIs(j, "name", IsText)
  }

  predicate IsContainer(j: Json) {
    && (j.Obj? || j.Null?)
    && FieldIs(j, "name", IsText) && FieldIs(j, "command", IsTextList) && FieldIs(j, "args", IsTextList)
    && FieldIs(j, "env", IsList) && FieldIs(j, "volumeMounts", IsList)
  }

  predicate IsPod(j: Json) {
    && (j.Obj? || j.Null?)
    && FieldIs(j, "volumes", IsList)
    && FieldIs(j, "initContainers", x => ListOf(x, IsInitContainer))
    && FieldIs(j, "containers", x => ListOf(x, IsContainer))
  }

  predicate IsAnnotations(j: Json) {
    j.Null? || (j.Obj? && forall k | k in j.fields :: IsText(j.fields[k]))
  }

  /** Objects along the path as far as it goes, and at its end something of that kind. */
  predicate Leads(j: Json, path: seq<string>, kind: Json -> bool)
    decreases |path|
  {
    if path == [] then kind(j)
    else j.Null? || (j.Obj? && (path[0] in j.fields ==> Leads(j.fields[path[0]], path[1..], kind)))
  }

  lemma {:induction false} LeadsIff(j: Json, path: seq<string>, kind: Json -> bool)
    requires kind(Null)
    ensures Leads(j, path, kind) <==> Descend(j, path).Some? && kind(Descend(j, path).value)
    decreases |path|
  {
    if path == [] {
    } else if j.Obj? && path[0] in j.fields {
      LeadsIff(j.fields[path[0]], path[1..], kind);
    } else if j.Obj? || j.Null? {
      DescendNull(path[1..]);
    }
  }

  lemma {:induction false} TextsIff(j: Json)
    ensures DecodeStrings(j).Some? <==> IsTextList(j)
  {
  }

  lemma {:induction false} ContainerIff(j: Json)
    ensures DecodeContainer(j).Some? <==> IsContainer(j)
  {
    TextsIff(Field(j, "command"));
    TextsIff(Field(j, "args"));
  }

  lemma {:induction false} PodIff(j: Json)
    ensures DecodePod(j).Some? <==> IsPod(j)
  {
    var inits, containers := Field(j, "initContainers"), Field(j, "containers");
    assert DecodeEach(inits, DecodeName).Some? <==> ListOf(inits, IsInitContainer);
    forall x
      ensures DecodeContainer(x).Some? <==> IsContainer(x)
    {
      ContainerIff(x);
    }
    assert DecodeEach(containers, DecodeContainer).Some? <==> ListOf(containers, IsContainer);
  }

  /** A document decodes exactly when everything the injector reads has the right type, is null or is absent. */
  lemma {:induction false} DecodesIff(raw: Json)
    ensures Decode(raw).Some? <==>
              Leads(raw, ["metadata", "annotations"], IsAnnotations)
              && Leads(raw, ["spec", "jobTemplate", "spec", "template", "spec"], IsPod)
  {
    LeadsIff(raw, ANNOTATIONS, IsAnnotations);
    LeadsIff(raw, POD, IsPod);
    if Descend(raw, POD).Some? {
      PodIff(Descend(raw, POD).value);
    }
  }
}
