/** JSON trees and JSON Patch (RFC 6902, sections 4.1 to 4.3). */
module JsonPatch {
  import opened Wrappers
  import opened JsonPointer

  datatype Json =
    | Null
    | Bool(b: bool)
    | Num(lexeme: string)
    | Str(s: string)
    | Arr(items: seq<Json>)
    | Obj(fields: map<string, Json>)

  /** One operation as it is put on the wire. */
  datatype Op = Op(op: string, path: string, value: Option<Json>)

  /** What an operation does at its target. */
  datatype Edit = Add(value: Json) | Remove | Replace(value: Json)

  // ----- Evaluation of a pointer -----

  function Child(doc: Json, tok: string): Option<Json> {
    match doc
    case Obj(fields) => if tok in fields then Some(fields[tok]) else None
    case Arr(items) =>
      var i := ParseIndex(tok);
      if i.Some? && i.value < |items| then Some(items[i.value]) else None
    case _ => None
  }

  function SetChild(doc: Json, tok: string, c: Json): Json
    requires Child(doc, tok).Some?
  {
    if doc.Obj? then Obj(doc.fields[tok := c]) else Arr(doc.items[ParseIndex(tok).value := c])
  }

  function Get(doc: Json, path: seq<string>): Option<Json> {
    if path == [] then Some(doc)
    else
      var c := Child(doc, path[0]);
      if c == None then None else Get(c.value, path[1..])
  }

  /** The document with the value at an existing `path` exchanged for `v`. */
  function Put(doc: Json, path: seq<string>, v: Json): Json
    requires Get(doc, path).Some?
    decreases |path|
  {
    if path == [] then v
    else SetChild(doc, path[0], Put(Child(doc, path[0]).value, path[1..], v))
  }

  // ----- Operations -----

  /** An edit at `tok` directly below `doc`. */
  function EditChild(doc: Json, tok: string, e: Edit): Option<Json> {
    match e
    case Add(v) =>
      (match doc
       case Obj(fields) => Some(Obj(fields[tok := v]))
       case Arr(items) =>
         if tok == "-" then Some(Arr(items + [v]))
         else
           var i := ParseIndex(tok);
           if i.Some? && i.value <= |items| then Some(Arr(items[..i.value] + [v] + items[i.value..])) else None
       case _ => None)
    case Remove =>
      if Child(doc, tok) == None then None
      else if doc.Obj? then Some(Obj(doc.fields - {tok}))
      else
        var i := ParseIndex(tok).value;
        Some(Arr(doc.items[..i] + doc.items[i + 1..]))
    case Replace(v) => if Child(doc, tok) == None then None else Some(SetChild(doc, tok, v))
  }

  /** Fails when the target location, or for `Remove` and `Replace` the target itself, is missing. */
  function EditAt(doc: Json, path: seq<string>, e: Edit): Option<Json>
    decreases |path|
  {
    if path == [] then (if e.Remove? then None else Some(e.value))
    else if |path| == 1 then EditChild(doc, path[0], e)
    else
      var c := Child(doc, path[0]);
      if c == None then None
      else
        var c' := EditAt(c.value, path[1..], e);
        if c' == None then None else Some(SetChild(doc, path[0], c'.value))
  }

  function EditOf(op: Op): Option<Edit> {
    if op.op == "add" && op.value.Some? then Some(Add(op.value.value))
    else if op.op == "replace" && op.value.Some? then Some(Replace(op.value.value))
    else if op.op == "remove" then Some(Remove)
    else None
  }

  function ApplyOp(doc: Json, op: Op): Option<Json> {
    var path := Parse(op.path);
    var e := EditOf(op);
    if path == None || e == None then None else EditAt(doc, path.value, e.value)
  }

  /** Operations are applied in order; the first failure makes the whole patch fail. */
  function ApplyPatch(doc: Json, ops: seq<Op>): Option<Json>
    decreases |ops|
  {
    if ops == [] then Some(doc)
    else
      var d := ApplyOp(doc, ops[0]);
      if d == None then None else ApplyPatch(d.value, ops[1..])
  }

  // ----- The same on parsed pointers -----

  datatype At = At(path: seq<string>, edit: Edit)

  predicate Means(op: Op, at: At) {
    Parse(op.path) == Some(at.path) && EditOf(op) == Some(at.edit)
  }

  ghost predicate AllMean(ops: seq<Op>, ats: seq<At>) {
    |ops| == |ats| && forall i | 0 <= i < |ops| :: Means(ops[i], ats[i])
  }

  function ApplyEdits(doc: Json, ats: seq<At>): Option<Json>
    decreases |ats|
  {
    if ats == [] then Some(doc)
    else
      var d := EditAt(doc, ats[0].path, ats[0].edit);
      if d == None then None else ApplyEdits(d.value, ats[1..])
  }

  lemma {:induction false} PatchIsEdits(doc: Json, ops: seq<Op>, ats: seq<At>)
    requires AllMean(ops, ats)
    ensures ApplyPatch(doc, ops) == ApplyEdits(doc, ats)
    decreases |ops|
  {
    if ops == [] {
    } else {
      assert Means(ops[0], ats[0]);
      var d := ApplyOp(doc, ops[0]);
      if d.Some? {
        PatchIsEdits(d.value, ops[1..], ats[1..]);
      }
    }
  }

  lemma {:induction false} ApplyEditsAppend(doc: Json, a: seq<At>, b: seq<At>)
    ensures ApplyEdits(doc, a + b)
         == (var d := ApplyEdits(doc, a); if d == None then None else ApplyEdits(d.value, b))
    decreases |a|
  {
    if a == [] {
      assert a + b == b;
    } else {
      assert (a + b)[1..] == a[1..] + b;
      var d := EditAt(doc, a[0].path, a[0].edit);
      if d.Some? {
        ApplyEditsAppend(d.value, a[1..], b);
      }
    }
  }

  lemma {:induction false} ApplyOne(doc: Json, at: At)
    ensures ApplyEdits(doc, [at]) == EditAt(doc, at.path, at.edit)
  {
    assert [at][1..] == [];
  }

  // ----- Edits below a common prefix act on the subtree alone -----

  function Under(prefix: seq<string>, ats: seq<At>): (r: seq<At>)
    ensures |r| == |ats|
    ensures forall i | 0 <= i < |r| :: r[i] == At(prefix + ats[i].path, ats[i].edit)
  {
    seq(|ats|, i requires 0 <= i < |ats| => At(prefix + ats[i].path, ats[i].edit))
  }

  predicate Below(ats: seq<At>) {
    forall i | 0 <= i < |ats| :: ats[i].path != []
  }

  lemma {:induction false} ChildOfSet(doc: Json, tok: string, c: Json)
    requires Child(doc, tok).Some?
    ensures Child(SetChild(doc, tok, c), tok) == Some(c)
    ensures forall c2 :: SetChild(SetChild(doc, tok, c), tok, c2) == SetChild(doc, tok, c2)
    ensures SetChild(doc, tok, Child(doc, tok).value) == doc
  {
    if doc.Obj? {
      assert doc.fields[tok := doc.fields[tok]] == doc.fields;
    }
  }

  lemma {:induction false} LiftOne(doc: Json, tok: string, ats: seq<At>)
    requires Child(doc, tok).Some? && Below(ats)
    ensures ApplyEdits(doc, Under([tok], ats))
         == (var c := ApplyEdits(Child(doc, tok).value, ats);
             if c == None then None else Some(SetChild(doc, tok, c.value)))
    decreases |ats|
  {
    var c := Child(doc, tok).value;
    ChildOfSet(doc, tok, c);
    if ats == [] {
    } else {
      var path := [tok] + ats[0].path;
      assert path[1..] == ats[0].path;
      assert Under([tok], ats)[0] == At(path, ats[0].edit);
      assert Under([tok], ats)[1..] == Under([tok], ats[1..]);
      var c' := EditAt(c, ats[0].path, ats[0].edit);
      if c'.Some? {
        var d := SetChild(doc, tok, c'.value);
        ChildOfSet(doc, tok, c'.value);
        LiftOne(d, tok, ats[1..]);
      }
    }
  }

  lemma {:induction false} Lift(doc: Json, prefix: seq<string>, ats: seq<At>)
    requires Get(doc, prefix).Some? && Below(ats)
    ensures ApplyEdits(doc, Under(prefix, ats))
         == (var v := ApplyEdits(Get(doc, prefix).value, ats);
             if v == None then None else Some(Put(doc, prefix, v.value)))
    decreases |prefix|
  {
    if prefix == [] {
      assert Under(prefix, ats) == ats by {
        forall i | 0 <= i < |ats|
          ensures Under(prefix, ats)[i] == ats[i]
        {
          assert prefix + ats[i].path == ats[i].path;
        }
      }
    } else {
      var inner := Under(prefix[1..], ats);
      assert Under(prefix, ats) == Under([prefix[0]], inner) by {
        forall i | 0 <= i < |ats|
          ensures Under(prefix, ats)[i] == Under([prefix[0]], inner)[i]
        {
          assert prefix + ats[i].path == [prefix[0]] + (prefix[1..] + ats[i].path);
        }
      }
      LiftOne(doc, prefix[0], inner);
      Lift(Child(doc, prefix[0]).value, prefix[1..], ats);
    }
  }

  // ----- What Put leaves alone -----

  /** The two paths part ways before either ends. */
  predicate Diverge(p: seq<string>, q: seq<string>)
    decreases |p|
  {
    p != [] && q != [] && (p[0] != q[0] || Diverge(p[1..], q[1..]))
  }

  lemma {:induction false} PutFrame(doc: Json, p: seq<string>, v: Json, q: seq<string>)
    requires Get(doc, p).Some? && Diverge(p, q)
    ensures Get(Put(doc, p, v), q) == Get(doc, q)
    decreases |p|
  {
    var c := Child(doc, p[0]).value;
    var c' := Put(c, p[1..], v);
    if p[0] == q[0] {
      PutFrame(c, p[1..], v, q[1..]);
      ChildOfSet(doc, p[0], c');
    } else {
      SiblingKept(doc, p[0], c', q[0]);
    }
  }

  lemma {:induction false} SiblingKept(doc: Json, tok: string, c: Json, other: string)
    requires Child(doc, tok).Some? && tok != other
    ensures Child(SetChild(doc, tok, c), other) == Child(doc, other)
  {
    if doc.Arr? && ParseIndex(other).Some? && ParseIndex(other) == ParseIndex(tok) {
      IndexInjective(tok, other);
    }
  }

  /** Inside the exchanged subtree only the new value counts. */
  lemma {:induction false} PutInside(doc: Json, p: seq<string>, v: Json, q: seq<string>)
    requires Get(doc, p).Some?
    ensures Get(Put(doc, p, v), p + q) == Get(v, q)
    decreases |p|
  {
    if p == [] {
      assert p + q == q;
    } else {
      var c := Child(doc, p[0]).value;
      ChildOfSet(doc, p[0], Put(c, p[1..], v));
      PutInside(c, p[1..], v, q);
      assert (p + q)[0] == p[0] && (p + q)[1..] == p[1..] + q;
    }
  }

  lemma {:induction false} GetAppend(doc: Json, p: seq<string>, q: seq<string>)
    requires Get(doc, p).Some?
    ensures Get(doc, p + q) == Get(Get(doc, p).value, q)
    decreases |p|
  {
    if p == [] {
      assert p + q == q;
    } else {
      GetAppend(Child(doc, p[0]).value, p[1..], q);
      assert (p + q)[0] == p[0] && (p + q)[1..] == p[1..] + q;
    }
  }

  // ----- Appending to an array field of an object -----

  /** The items of a field that is an array; none when the field is absent or null. */
  function Items(doc: Json, field: string): seq<Json> {
    if doc.Obj? && field in doc.fields && doc.fields[field].Arr? then doc.fields[field].items else []
  }

  /** A whole-array add when the field has no items, an append otherwise. */
  function AppendEdit(field: string, empty: bool, v: Json): At {
    if empty then At([field], Add(Arr([v]))) else At([field, "-"], Add(v))
  }

  lemma {:induction false} AppendToField(doc: Json, field: string, v: Json)
    requires doc.Obj?
    ensures var at := AppendEdit(field, Items(doc, field) == [], v);
            EditAt(doc, at.path, at.edit) == Some(Obj(doc.fields[field := Arr(Items(doc, field) + [v])]))
  {
    if Items(doc, field) == [] {
      assert Items(doc, field) + [v] == [v];
    } else {
      assert [field, "-"][1..] == ["-"];
      assert EditAt(doc.fields[field], ["-"], Add(v)) == Some(Arr(Items(doc, field) + [v]));
    }
  }

  /** Appends one after the other to a field that already has items. */
  function AppendEach(field: string, vs: seq<Json>): (r: seq<At>)
    ensures |r| == |vs|
    ensures forall i | 0 <= i < |r| :: r[i] == At([field, "-"], Add(vs[i]))
  {
    seq(|vs|, i requires 0 <= i < |vs| => At([field, "-"], Add(vs[i])))
  }

  lemma {:induction false} AppendAllToField(doc: Json, field: string, vs: seq<Json>)
    requires Items(doc, field) != []
    ensures ApplyEdits(doc, AppendEach(field, vs))
         == Some(Obj(doc.fields[field := Arr(Items(doc, field) + vs)]))
    decreases |vs|
  {
    var items := Items(doc, field);
    if vs == [] {
      assert items + vs == items;
      assert doc.fields[field := Arr(items)] == doc.fields;
    } else {
      AppendToField(doc, field, vs[0]);
      var d := Obj(doc.fields[field := Arr(items + [vs[0]])]);
      AppendAllToField(d, field, vs[1..]);
      assert AppendEach(field, vs)[1..] == AppendEach(field, vs[1..]);
      assert items + [vs[0]] + vs[1..] == items + vs;
      assert d.fields[field := Arr(items + vs)] == doc.fields[field := Arr(items + vs)];
    }
  }

  // ----- RFC 6902 on arrays and missing targets -----

  /** An added value is found where it was added, and removing it restores the document. */
  lemma {:induction false} RemoveUndoesAdd(doc: Json, tok: string, v: Json)
    requires EditChild(doc, tok, Add(v)).Some? && tok != "-"
    requires doc.Obj? ==> tok !in doc.fields
    ensures var added := EditChild(doc, tok, Add(v)).value;
            Child(added, tok) == Some(v) && EditChild(added, tok, Remove) == Some(doc)
  {
    if doc.Obj? {
      assert doc.fields[tok := v] - {tok} == doc.fields;
    } else {
      var i, items := ParseIndex(tok).value, doc.items;
      var more := items[..i] + [v] + items[i..];
      assert more[..i] == items[..i] && more[i + 1..] == items[i..];
      assert items == items[..i] + items[i..];
    }
  }

  /** Remove and replace need their target, and replace leaves the new value there. */
  lemma {:induction false} TargetNeeded(doc: Json, path: seq<string>, e: Edit)
    requires path != [] && !e.Add?
    ensures EditAt(doc, path, e).Some? <==> Get(doc, path).Some?
    ensures e.Replace? && Get(doc, path).Some? ==> EditAt(doc, path, e) == Some(Put(doc, path, e.value))
    decreases |path|
  {
    if |path| == 1 {
      assert path[1..] == [];
    } else if Child(doc, path[0]).Some? {
      TargetNeeded(Child(doc, path[0]).value, path[1..], e);
    }
  }
}
