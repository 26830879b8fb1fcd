/** The downgrade as the tool runs it: on maps that live on the heap, the new ones written in place,
    the input left alone. */
module DowngraderTool {
  import opened Downgrader

  datatype Value =
    | VMap(o: GoMap)
    | VArr(items: seq<Value>)
    | VStr(s: string)
    | VBool(b: bool)
    | VNum(n: int)
    | VNull

  class GoMap {
    var entries: map<string, Value>

    constructor ()
      ensures entries == map[]
    {
      entries := map[];
    }
  }

  /** `v` stands for `n`, using the maps in `fp` and no map inside itself. */
  ghost predicate Rep(v: Value, n: Node, fp: set<GoMap>)
    reads fp
    decreases n
  {
    match n
    case Map(m) => v.VMap? && v.o in fp && RepFields(v.o.entries, n, fp - {v.o})
    case Arr(s) => v.VArr? && |v.items| == |s| && forall i :: 0 <= i < |s| ==> Rep(v.items[i], s[i], fp)
    case Str(s) => v == VStr(s)
    case Bool(b) => v == VBool(b)
    case Num(k) => v == VNum(k)
    case Null => v == VNull
  }

  ghost predicate RepFields(entries: map<string, Value>, n: Node, fp: set<GoMap>)
    requires n.Map?
    reads fp
    decreases n, 0
  {
    entries.Keys == n.fields.Keys && forall k :: k in n.fields ==> Rep(entries[k], n.fields[k], fp)
  }

  lemma {:induction false} RepGrows(v: Value, n: Node, fp: set<GoMap>, more: set<GoMap>)
    requires Rep(v, n, fp) && fp <= more
    ensures Rep(v, n, more)
    decreases n, 1
  {
    match n
    case Map(m) => RepFieldsGrows(v.o.entries, n, fp - {v.o}, more - {v.o});
    case Arr(s) =>
      forall i | 0 <= i < |s|
        ensures Rep(v.items[i], s[i], more)
      {
        RepGrows(v.items[i], s[i], fp, more);
      }
    case _ =>
  }

  lemma {:induction false} RepFieldsGrows(entries: map<string, Value>, n: Node, fp: set<GoMap>, more: set<GoMap>)
    requires n.Map? && RepFields(entries, n, fp) && fp <= more
    ensures RepFields(entries, n, more)
    decreases n, 0
  {
    forall k | k in n.fields
      ensures Rep(entries[k], n.fields[k], more)
    {
      RepGrows(entries[k], n.fields[k], fp, more);
    }
  }

  /** A value stands for one document only. */
  lemma {:induction false} RepUnique(v: Value, n: Node, fp: set<GoMap>, n': Node, fp': set<GoMap>)
    requires Rep(v, n, fp) && Rep(v, n', fp')
    ensures n == n'
    decreases n
  {
    match n
    case Map(m) =>
      assert RepFields(v.o.entries, n, fp - {v.o}) && RepFields(v.o.entries, n', fp' - {v.o});
      forall k | k in m
        ensures m[k] == n'.fields[k]
      {
        RepUnique(v.o.entries[k], m[k], fp - {v.o}, n'.fields[k], fp' - {v.o});
      }
      assert m == n'.fields;
    case Arr(s) =>
      forall i | 0 <= i < |s|
        ensures s[i] == n'.items[i]
      {
        RepUnique(v.items[i], s[i], fp, n'.items[i], fp');
      }
      assert s == n'.items;
    case _ =>
  }

  method IsNullSchema(v: Value, ghost n: Node, ghost fp: set<GoMap>) returns (b: bool)
    requires Rep(v, n, fp)
    ensures b <==> n.Map? && "type" in n.fields && n.fields["type"] == Str("null")
  {
    if !v.VMap? {
      return false;
    }
    assert "type" in n.fields ==> Rep(v.o.entries["type"], n.fields["type"], fp - {v.o});
    b := "type" in v.o.entries && v.o.entries["type"] == VStr("null");
  }

  /** Written in place. */
  method SetNullable(v: Value, ghost n: Node, ghost fp: set<GoMap>) returns (ok: bool)
    requires Rep(v, n, fp)
    modifies fp
    ensures ok <==> n.Map?
    ensures ok ==> v.VMap? && v.o.entries == old(v.o.entries)["nullable" := VBool(true)]
    ensures ok ==> OnlyMarked(n, MakeNullable(n)) && Rep(v, MakeNullable(n), fp)
    ensures !ok ==> Rep(v, n, fp)
  {
    if !v.VMap? {
      return false;
    }
    ghost var inner := fp - {v.o};
    label before:
    v.o.entries := v.o.entries["nullable" := VBool(true)];
    assert forall k :: k in n.fields ==>
             old@before(Rep(v.o.entries[k], n.fields[k], inner)) ==> Rep(old@before(v.o.entries)[k], n.fields[k], inner);
    MarkedOnly(n);
    ok := true;
  }

  /** Whether the converted `anyOf` is a list of one map; an error if it is not a list. */
  method SimplifyAnyOf(v: Value, ghost n: Node, ghost fp: set<GoMap>) returns (ok: bool, only: GoMap?)
    requires Rep(v, n, fp)
    ensures ok <==> n.Arr?
    ensures ok ==> (only != null <==> |n.items| == 1 && n.items[0].Map?)
    ensures ok && only != null ==> Rep(VMap(only), n.items[0], fp)
  {
    ok, only := v.VArr?, null;
    if ok && |v.items| == 1 && v.items[0].VMap? {
      only := v.items[0].o;
    }
  }

  method CopyFields(to: GoMap, from: GoMap)
    requires to != from
    modifies to
    ensures to.entries == old(to.entries) + from.entries
  {
    var keys := from.entries.Keys;
    ghost var copied: map<string, Value> := map[];
    while keys != {}
      invariant keys <= from.entries.Keys && from.entries == old(from.entries)
      invariant copied.Keys == from.entries.Keys - keys
      invariant forall k :: k in copied ==> copied[k] == from.entries[k]
      invariant to.entries == old(to.entries) + copied
    {
      var k :| k in keys;
      to.entries := to.entries[k := from.entries[k]];
      copied := copied[k := from.entries[k]];
      keys := keys - {k};
    }
    assert copied == from.entries;
  }

  /** The fields after one more of them is converted. */
  ghost function WithField(acc: map<string, Node>, key: string, part: Node): map<string, Node> {
    if key == "anyOf" && OneMap(part) then acc + part.items[0].fields else acc[key := part]
  }

  lemma MergedField(parts: map<string, Node>, acc: map<string, Node>, key: string, part: Node)
    requires Merged(parts, acc) && key !in parts && (key == "anyOf" ==> part.Arr?)
    ensures Merged(parts[key := part], WithField(acc, key, part))
  {
  }

  method StoreField(out: GoMap, key: string, t: Value, ghost acc: map<string, Node>, ghost part: Node, ghost fp: set<GoMap>)
    returns (ok: bool)
    requires out !in fp && RepFields(out.entries, Map(acc), fp) && Rep(t, part, fp)
    modifies out
    ensures ok <==> (key == "anyOf" ==> part.Arr?)
    ensures ok ==> RepFields(out.entries, Map(WithField(acc, key, part)), fp)
  {
    ok := true;
    if key == "anyOf" {
      var only: GoMap?;
      ok, only := SimplifyAnyOf(t, part, fp);
      if !ok {
        return;
      }
      if only != null {
        CopyFields(out, only);
        assert RepFields(only.entries, part.items[0], fp - {only});
        RepFieldsGrows(only.entries, part.items[0], fp - {only}, fp);
        return;
      }
    }
    out.entries := out.entries[key := t];
  }

  method TransformNode(v: Value, ghost n: Node, ghost fp: set<GoMap>)
    returns (ok: bool, out: Value, ghost r: Node, ghost made: set<GoMap>)
    requires Rep(v, n, fp)
    ensures ok <==> Convertible(n)
    ensures fresh(made)
    ensures ok ==> Downgraded(n, r) && Rep(out, r, made) && (n.Arr? <==> r.Arr?)
    decreases n, 2
  {
    if v.VMap? {
      var o;
      ok, o, r, made := TransformMap(v.o, n, fp);
      out := VMap(o);
    } else if v.VArr? {
      ghost var items;
      var list;
      ok, list, items, made := TransformArray(v.items, n.items, fp);
      out, r := VArr(list), Arr(items);
    } else {
      ok, out, r, made := true, v, n, {};
    }
  }

  ghost predicate FieldsDone(n: Node, parts: map<string, Node>)
    requires n.Map?
  {
    && parts.Keys <= n.fields.Keys
    && (forall k :: k in parts ==> Convertible(n.fields[k]) && Downgraded(n.fields[k], parts[k]))
    && ("anyOf" in parts ==> n.fields["anyOf"].Arr?)
  }

  /** The fields converted so far make `acc`. */
  ghost predicate Building(n: Node, parts: map<string, Node>, acc: map<string, Node>)
    requires n.Map?
  {
    FieldsDone(n, parts) && Merged(parts, acc)
  }

  lemma FieldDone(n: Node, parts: map<string, Node>, acc: map<string, Node>, key: string, part: Node)
    requires n.Map? && Building(n, parts, acc) && key in n.fields && key !in parts
    requires Convertible(n.fields[key]) && Downgraded(n.fields[key], part) && (key == "anyOf" ==> n.fields[key].Arr?)
    ensures Building(n, parts[key := part], WithField(acc, key, part))
  {
    MergedField(parts, acc, key, part);
  }

  /** Convert one field and store it. */
  method ConvertField(v: Value, key: string, ghost n: Node, ghost fp: set<GoMap>,
                      out: GoMap, ghost acc: map<string, Node>, ghost inner: set<GoMap>)
    returns (ok: bool, ghost part: Node, ghost inner': set<GoMap>)
    requires Rep(v, n, fp)
    requires out !in inner && RepFields(out.entries, Map(acc), inner)
    modifies out
    ensures ok <==> Convertible(n) && (key == "anyOf" ==> n.Arr?)
    ensures fresh(inner' - inner) && out !in inner'
    ensures ok ==> Downgraded(n, part) && RepFields(out.entries, Map(WithField(acc, key, part)), inner')
    decreases n, 3
  {
    var t: Value;
    ghost var made: set<GoMap>;
    inner' := inner;
    ok, t, part, made := TransformNode(v, n, fp);
    if !ok {
      return;
    }
    inner' := inner + made;
    RepFieldsGrows(out.entries, Map(acc), inner, inner');
    RepGrows(t, part, made, inner');
    ok := StoreField(out, key, t, acc, part, inner');
  }

  lemma AllFieldsDone(n: Node, parts: map<string, Node>, r: Node)
    requires n.Map? && FieldsDone(n, parts) && parts.Keys == n.fields.Keys && r.Map? && Merged(parts, r.fields)
    ensures Convertible(n) && Downgraded(n, r)
  {
    assert PartsOf(n, parts);
  }

  /** The keys are taken in no particular order. */
  method TransformMap(o: GoMap, ghost n: Node, ghost fp: set<GoMap>)
    returns (ok: bool, out: GoMap, ghost r: Node, ghost made: set<GoMap>)
    requires Rep(VMap(o), n, fp)
    ensures ok <==> Convertible(n)
    ensures fresh(made)
    ensures ok ==> Downgraded(n, r) && Rep(VMap(out), r, made)
    decreases n, 1
  {
    out := new GoMap();
    ghost var inner: set<GoMap>, parts: map<string, Node>, acc: map<string, Node> := {}, map[], map[];
    r, made := n, {};
    var keys := o.entries.Keys;
    while keys != {}
      invariant parts.Keys == n.fields.Keys - keys && keys <= n.fields.Keys
      invariant fresh(out) && fresh(inner) && out !in inner
      invariant Building(n, parts, acc) && RepFields(out.entries, Map(acc), inner)
      decreases keys
    {
      var key :| key in keys;
      ghost var part: Node;
      ok, part, inner := ConvertField(o.entries[key], key, n.fields[key], fp - {o}, out, acc, inner);
      if !ok {
        return;
      }
      FieldDone(n, parts, acc, key, part);
      acc, parts, keys := WithField(acc, key, part), parts[key := part], keys - {key};
    }
    ok, r, made := true, Map(acc), inner + {out};
    AllFieldsDone(n, parts, r);
    assert made - {out} == inner;
  }

  ghost predicate Apart(fps: seq<set<GoMap>>) {
    forall i, j :: 0 <= i < j < |fps| ==> fps[i] !! fps[j]
  }

  ghost function Union(fps: seq<set<GoMap>>): (u: set<GoMap>)
    ensures forall i :: 0 <= i < |fps| ==> fps[i] <= u
    ensures forall x :: x in u ==> exists i :: 0 <= i < |fps| && x in fps[i]
  {
    if fps == [] then {} else Union(fps[..|fps| - 1]) + fps[|fps| - 1]
  }

  lemma AllRepThen(out: seq<Value>, nodes: seq<Node>, fps: seq<set<GoMap>>, v: Value, n: Node, fp: set<GoMap>)
    requires AllRep(out, nodes, fps) && Rep(v, n, fp) && fp !! Union(fps)
    ensures AllRep(out + [v], nodes + [n], fps + [fp])
    ensures Union(fps + [fp]) == Union(fps) + fp
  {
    assert (fps + [fp])[..|fps|] == fps;
  }

  lemma ItemDropped(s: seq<Node>, i: nat, kept: seq<Node>)
    requires i < |s| && ItemsConvertible(s[..i]) && KeptOf(s[..i], kept) && IsTypeNull(s[i])
    ensures ItemsConvertible(s[..i + 1]) && KeptOf(s[..i + 1], kept) && HasNull(s[..i + 1])
  {
    assert s[..i + 1][..i] == s[..i];
    assert IsTypeNull(s[..i + 1][i]);
  }

  lemma ItemKept(s: seq<Node>, i: nat, kept: seq<Node>, part: Node)
    requires i < |s| && ItemsConvertible(s[..i]) && KeptOf(s[..i], kept)
    requires !IsTypeNull(s[i]) && Convertible(s[i]) && Downgraded(s[i], part)
    ensures ItemsConvertible(s[..i + 1]) && KeptOf(s[..i + 1], kept + [part]) && (HasNull(s[..i + 1]) <==> HasNull(s[..i]))
  {
    assert s[..i + 1][..i] == s[..i];
    assert (kept + [part])[..|kept|] == kept;
    assert forall j :: 0 <= j < i ==> s[..i][j] == s[..i + 1][j];
  }

  /** Convert one item into maps of its own. */
  method ConvertItem(v: Value, ghost s: seq<Node>, ghost i: nat, ghost fp: set<GoMap>,
                     out: seq<Value>, ghost kept: seq<Node>, ghost fps: seq<set<GoMap>>)
    returns (ok: bool, out': seq<Value>, ghost kept': seq<Node>, ghost fps': seq<set<GoMap>>)
    requires i < |s| && Rep(v, s[i], fp) && !IsTypeNull(s[i])
    requires AllRep(out, kept, fps) && ItemsConvertible(s[..i]) && KeptOf(s[..i], kept)
    ensures ok <==> Convertible(s[i])
    ensures AllRep(out', kept', fps') && fresh(Union(fps') - Union(fps))
    ensures ok ==> ItemsConvertible(s[..i + 1]) && KeptOf(s[..i + 1], kept') && (HasNull(s[..i + 1]) <==> HasNull(s[..i]))
    decreases s[i], 3
  {
    var t: Value;
    ghost var part: Node, fpt: set<GoMap>;
    ok, t, part, fpt := TransformNode(v, s[i], fp);
    if !ok {
      out', kept', fps' := out, kept, fps;
      return;
    }
    AllRepThen(out, kept, fps, t, part, fpt);
    ItemKept(s, i, kept, part);
    out', kept', fps' := out + [t], kept + [part], fps + [fpt];
  }

  /** First pass: items other than `{type: null}` are converted. */
  method ConvertItems(a: seq<Value>, ghost s: seq<Node>, ghost fp: set<GoMap>)
    returns (ok: bool, hasNull: bool, out: seq<Value>, ghost kept: seq<Node>, ghost fps: seq<set<GoMap>>)
    requires |a| == |s| && forall i :: 0 <= i < |s| ==> Rep(a[i], s[i], fp)
    ensures ok <==> ItemsConvertible(s)
    ensures ok ==> hasNull == HasNull(s) && KeptOf(s, kept)
    ensures AllRep(out, kept, fps) && fresh(Union(fps))
    decreases s, 0
  {
    ok, hasNull, out, kept, fps := true, false, [], [], [];
    for idx := 0 to |a|
      invariant AllRep(out, kept, fps) && fresh(Union(fps))
      invariant ItemsConvertible(s[..idx]) && KeptOf(s[..idx], kept)
      invariant hasNull <==> HasNull(s[..idx])
    {
      var isNull := IsNullSchema(a[idx], s[idx], fp);
      if isNull {
        ItemDropped(s, idx, kept);
        hasNull := true;
      } else {
        ok, out, kept, fps := ConvertItem(a[idx], s, idx, fp, out, kept, fps);
        if !ok {
          NotConvertible(s, idx);
          return;
        }
      }
    }
    assert s[..|a|] == s;
  }

  /** Each value stands for its node, with maps that no other value uses. */
  ghost predicate AllRep(out: seq<Value>, nodes: seq<Node>, fps: seq<set<GoMap>>)
    reads Union(fps)
  {
    && |out| == |nodes| == |fps|
    && Apart(fps)
    && forall i :: 0 <= i < |fps| ==> Rep(out[i], nodes[i], fps[i])
  }

  method MarkItem(out: seq<Value>, idx: nat, ghost nodes: seq<Node>, ghost fps: seq<set<GoMap>>) returns (ok: bool)
    requires AllRep(out, nodes, fps) && idx < |out|
    modifies fps[idx]
    ensures ok <==> nodes[idx].Map?
    ensures ok ==> AllRep(out, nodes[idx := MakeNullable(nodes[idx])], fps)
  {
    ok := SetNullable(out[idx], nodes[idx], fps[idx]);
    assert forall j :: 0 <= j < |fps| && j != idx ==> fps[idx] !! fps[j];
  }

  /** Second pass, if an item was dropped: the others become nullable, in place. */
  method MarkItems(out: seq<Value>, ghost kept: seq<Node>, ghost fps: seq<set<GoMap>>) returns (ok: bool, ghost items: seq<Node>)
    requires AllRep(out, kept, fps)
    modifies Union(fps)
    ensures ok <==> OnlyMaps(kept)
    ensures ok ==> Marked(true, kept, items) && AllRep(out, items, fps)
  {
    items := kept;
    for idx := 0 to |out|
      invariant |items| == |kept|
      invariant forall i :: 0 <= i < idx ==> kept[i].Map? && items[i] == MakeNullable(kept[i])
      invariant forall i :: idx <= i < |kept| ==> items[i] == kept[i]
      invariant AllRep(out, items, fps)
    {
      ok := MarkItem(out, idx, items, fps);
      if !ok {
        return;
      }
      items := items[idx := MakeNullable(kept[idx])];
    }
    ok := true;
  }

  method TransformArray(a: seq<Value>, ghost s: seq<Node>, ghost fp: set<GoMap>)
    returns (ok: bool, out: seq<Value>, ghost items: seq<Node>, ghost made: set<GoMap>)
    requires |a| == |s| && forall i :: 0 <= i < |s| ==> Rep(a[i], s[i], fp)
    ensures ok <==> Convertible(Arr(s))
    ensures fresh(made)
    ensures ok ==> Downgraded(Arr(s), Arr(items)) && Rep(VArr(out), Arr(items), made)
    decreases s, 1
  {
    var hasNull: bool;
    ghost var kept: seq<Node>, fps: seq<set<GoMap>>;
    ok, hasNull, out, kept, fps := ConvertItems(a, s, fp);
    items, made := kept, {};
    if !ok {
      return;
    }
    KeptMaps(s, kept);
    if hasNull {
      ok, items := MarkItems(out, kept, fps);
      if !ok {
        return;
      }
    }
    assert KeptOf(s, kept) && Marked(HasNull(s), kept, items);
    made := Union(fps);
    forall i | 0 <= i < |items|
      ensures Rep(out[i], items[i], made)
    {
      RepGrows(out[i], items[i], fps[i], made);
    }
  }

  lemma {:induction false} NotConvertible(s: seq<Node>, i: nat)
    requires i < |s| && !IsTypeNull(s[i]) && !Convertible(s[i])
    ensures !ItemsConvertible(s)
  {
    if i < |s| - 1 {
      NotConvertible(s[..|s| - 1], i);
    }
  }
}
