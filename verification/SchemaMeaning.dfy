/** What a schema accepts, and how far the downgrade keeps that.

    The keywords with a meaning here are `type`, `anyOf` (section 10.2.1.2 of JSON Schema 2020-12
    Core), `items`, `properties` and, in the 3.0 readings, `nullable`.  Other keys are annotations.
    Section 4.7.24 of OpenAPI 3.0.3 lets `nullable` add null to the `type` of the same schema, and
    gives it no effect where there is no `type`: that is `V30Strict`.  In the loose reading `V30` it
    lets null through wherever it stands, which is how the tool uses it. */
module SchemaMeaning {
  import opened Downgrader

  datatype Json =
    | JNull
    | JBool(b: bool)
    | JNumber(r: real)
    | JString(s: string)
    | JArray(elems: seq<Json>)
    | JObject(members: map<string, Json>)

  predicate HasType(t: string, v: Json) {
    match v
    case JNull => t == "null"
    case JBool(_) => t == "boolean"
    case JNumber(r) => t == "number" || (t == "integer" && r.Floor as real == r)
    case JString(_) => t == "string"
    case JArray(_) => t == "array"
    case JObject(_) => t == "object"
  }

  datatype Version = V31 | V30 | V30Strict

  ghost predicate Accepts(version: Version, n: Node, v: Json)
    decreases n
  {
    n.Map? && (Nullable(version, n.fields, v) || (TypeAccepts(version, n.fields, v) && Keywords(version, n, v)))
  }

  predicate Nullable(version: Version, m: map<string, Node>, v: Json) {
    version.V30? && MarkedNullable(m) && v.JNull?
  }

  predicate MarkedNullable(m: map<string, Node>) {
    "nullable" in m && m["nullable"] == Bool(true)
  }

  predicate TypeAccepts(version: Version, m: map<string, Node>, v: Json) {
    "type" in m ==>
      m["type"].Str? && (HasType(m["type"].s, v) || (version.V30Strict? && MarkedNullable(m) && v.JNull?))
  }

  ghost predicate Keywords(version: Version, n: Node, v: Json)
    requires n.Map?
    decreases n, 0
  {
    var m := n.fields;
    && ("anyOf" in m ==> m["anyOf"].Arr? && SomeAccepts(version, m["anyOf"].items, v))
    && ("items" in m && v.JArray? ==> forall i :: 0 <= i < |v.elems| ==> Accepts(version, m["items"], v.elems[i]))
    && ("properties" in m && v.JObject? ==>
          m["properties"].Map? &&
          forall k :: k in m["properties"].fields && k in v.members ==>
            Accepts(version, m["properties"].fields[k], v.members[k]))
  }

  ghost predicate SomeAccepts(version: Version, alternatives: seq<Node>, v: Json)
    decreases alternatives, 0
  {
    alternatives != [] &&
    var last := |alternatives| - 1;
    SomeAccepts(version, alternatives[..last], v) || Accepts(version, alternatives[last], v)
  }

  // ---------------------------------------------------------------- the schemas covered

  /** Typed schemas, possibly with items and properties, and choices between such schemas and null. */
  predicate Schema(n: Node)
    decreases n, 1
  {
    n.Map? && "nullable" !in n.fields && if "anyOf" in n.fields then Choice(n) && !OnlyNulls(n.fields["anyOf"].items) else Typed(n)
  }

  predicate Typed(n: Node)
    requires n.Map?
    decreases n, 0
  {
    var m := n.fields;
    && "type" in m && m["type"].Str? && m["type"].s != "null"
    && ("items" in m ==> Schema(m["items"]))
    && ("properties" in m ==>
          && m["properties"].Map?
          && "anyOf" !in m["properties"].fields
          && forall k :: k in m["properties"].fields ==> Schema(m["properties"].fields[k]))
  }

  /** A choice; its siblings are annotations. */
  predicate Choice(n: Node)
    requires n.Map? && "anyOf" in n.fields
    decreases n, 0
  {
    && n.fields["anyOf"].Arr?
    && Alternatives(n.fields["anyOf"].items)
    && "type" !in n.fields && "items" !in n.fields && "properties" !in n.fields
  }

  predicate Alternatives(s: seq<Node>)
    decreases s, 0
  {
    forall i :: 0 <= i < |s| ==> if IsTypeNull(s[i]) then NullOnly(s[i]) else Schema(s[i])
  }

  predicate NullOnly(n: Node) {
    IsTypeNull(n) && "anyOf" !in n.fields && "items" !in n.fields && "properties" !in n.fields
  }

  /** Null is the one alternative there is. */
  predicate OnlyNulls(s: seq<Node>) {
    s != [] && forall i :: 0 <= i < |s| ==> IsTypeNull(s[i])
  }

  // ---------------------------------------------------------------- where null gets lost

  /** The result of this schema has a `type`: it has one itself, or its one alternative is merged in. */
  predicate KeepsType(n: Node) {
    n.Map? && if "anyOf" in n.fields && n.fields["anyOf"].Arr? then OneKeepsType(AnyOf(n)) else "type" in n.fields
  }

  predicate OneKeepsType(s: seq<Node>) {
    exists i :: 0 <= i < |s| && !IsTypeNull(s[i]) && KeepsType(s[i]) && OthersNull(s, i)
  }

  predicate OthersNull(s: seq<Node>, i: nat) {
    forall j :: 0 <= j < |s| && j != i ==> IsTypeNull(s[j])
  }

  predicate RealTyped(n: Node) {
    !IsTypeNull(n) && KeepsType(n)
  }

  ghost predicate RealAccepts(n: Node, v: Json) {
    !IsTypeNull(n) && Accepts(V31, n, v)
  }

  predicate SomeTyped(s: seq<Node>) {
    exists i :: 0 <= i < |s| && RealTyped(s[i])
  }

  ghost predicate SomeReal(s: seq<Node>, v: Json) {
    exists i :: 0 <= i < |s| && RealAccepts(s[i], v)
  }

  /** The list has a null alternative, and no other one that could stand in for it. */
  ghost predicate Lost(version: Version, s: seq<Node>) {
    if version.V30? then OnlyNulls(s) else HasNull(s) && !SomeTyped(s) && !SomeReal(s, JNull)
  }

  function AnyOf(n: Node): seq<Node> {
    if n.Map? && "anyOf" in n.fields && n.fields["anyOf"].Arr? then n.fields["anyOf"].items else []
  }

  function Properties(n: Node): map<string, Node> {
    if n.Map? && "properties" in n.fields && n.fields["properties"].Map? then n.fields["properties"].fields else map[]
  }

  /** `p` is a schema right inside `n`. */
  ghost predicate Part(n: Node, p: Node) {
    || (exists i :: 0 <= i < |AnyOf(n)| && p == AnyOf(n)[i] && !IsTypeNull(p))
    || (n.Map? && "anyOf" !in n.fields && "items" in n.fields && p == n.fields["items"])
    || (n.Map? && "anyOf" !in n.fields && exists k :: k in Properties(n) && p == Properties(n)[k])
  }

  lemma PartSmaller(n: Node, p: Node)
    requires Part(n, p)
    ensures p < n
  {
    if i: nat :| i < |AnyOf(n)| && p == AnyOf(n)[i] {
      assert n.fields["anyOf"].items[i] < n.fields["anyOf"];
    }
  }

  /** No choice in the schema loses its null, at any depth. */
  ghost predicate Carried(n: Node)
    decreases n
  {
    && !Lost(V30Strict, AnyOf(n))
    && forall p :: Part(n, p) ==> (PartSmaller(n, p); Carried(p))
  }

  ghost predicate Covered(version: Version, n: Node) {
    version.V30Strict? ==> Carried(n)
  }

  ghost predicate AllCovered(version: Version, s: seq<Node>) {
    forall i :: 0 <= i < |s| && !IsTypeNull(s[i]) ==> Covered(version, s[i])
  }

  lemma ChoiceOf(n: Node)
    requires Schema(n) && "anyOf" in n.fields
    ensures Choice(n) && n.fields["anyOf"].Arr? && Alternatives(AnyOf(n)) && !OnlyNulls(AnyOf(n))
  {
    assert Choice(n);
  }

  lemma TypedOf(n: Node)
    requires Schema(n) && "anyOf" !in n.fields
    ensures Typed(n) && "type" in n.fields && n.fields["type"].Str?
    ensures "items" in n.fields ==> Schema(n.fields["items"])
    ensures "properties" in n.fields ==> n.fields["properties"].Map? && "anyOf" !in n.fields["properties"].fields
    ensures forall k :: k in Properties(n) ==> Schema(Properties(n)[k])
  {
    assert Typed(n);
  }

  lemma PartsAreSchemas(n: Node, p: Node)
    requires Schema(n) && Part(n, p)
    ensures Schema(p)
  {
    if "anyOf" in n.fields {
      ChoiceOf(n);
    } else {
      TypedOf(n);
    }
  }

  // ---------------------------------------------------------------- which results have a type

  predicate Shaped(n: Node) {
    n.Map? && ("type" in n.fields ==> n.fields["type"].Str? && "anyOf" !in n.fields)
  }

  /** Only one alternative is left if and only if only one is not null. */
  lemma {:induction false} KeptOne(s: seq<Node>, kept: seq<Node>) returns (i: nat)
    requires KeptOf(s, kept) && |kept| == 1
    ensures i < |s| && !IsTypeNull(s[i]) && OthersNull(s, i) && Downgraded(s[i], kept[0])
  {
    var front, last := s[..|s| - 1], s[|s| - 1];
    if IsTypeNull(last) {
      i := KeptOne(front, kept);
      assert forall j :: 0 <= j < |front| ==> front[j] == s[j];
    } else {
      i := |s| - 1;
      KeptNone(front, kept[..0]);
      assert forall j :: 0 <= j < |front| ==> front[j] == s[j];
    }
  }

  lemma {:induction false} KeptNone(s: seq<Node>, kept: seq<Node>)
    requires KeptOf(s, kept)
    ensures kept == [] <==> forall j :: 0 <= j < |s| ==> IsTypeNull(s[j])
  {
    if s != [] {
      var front := s[..|s| - 1];
      assert forall j :: 0 <= j < |front| ==> front[j] == s[j];
      if IsTypeNull(s[|s| - 1]) {
        KeptNone(front, kept);
      }
    }
  }

  lemma {:induction false} OneIsKept(s: seq<Node>, kept: seq<Node>, i: nat)
    requires KeptOf(s, kept) && i < |s| && !IsTypeNull(s[i]) && OthersNull(s, i)
    ensures |kept| == 1
  {
    var front := s[..|s| - 1];
    assert forall j :: 0 <= j < |front| ==> front[j] == s[j];
    if i < |s| - 1 {
      OneIsKept(front, kept, i);
    } else {
      KeptNone(front, kept[..|kept| - 1]);
    }
  }

  lemma {:induction false} ResultShape(n: Node, r: Node)
    requires Schema(n) && Downgraded(n, r)
    ensures Shaped(r) && ("type" in r.fields <==> KeepsType(n))
    decreases n, 1
  {
    var parts: map<string, Node> :| PartsOf(n, parts) && Merged(parts, r.fields);
    if "anyOf" in n.fields {
      ChoiceShape(n, parts, r);
    } else {
      TypedOf(n);
      assert Downgraded(n.fields["type"], parts["type"]);
    }
  }

  lemma {:induction false} ChoiceShape(n: Node, parts: map<string, Node>, r: Node)
    requires Schema(n) && "anyOf" in n.fields && r.Map? && PartsOf(n, parts) && Merged(parts, r.fields)
    ensures Shaped(r) && ("type" in r.fields <==> KeepsType(n))
    decreases n, 0
  {
    var s := AnyOf(n);
    ChoiceOf(n);
    assert Downgraded(n.fields["anyOf"], parts["anyOf"]);
    var kept: seq<Node> :| KeptOf(s, kept) && Marked(HasNull(s), kept, parts["anyOf"].items);
    ListShape(s, kept);
    assert OneMap(parts["anyOf"]) <==> |kept| == 1;
  }

  /** What is left of a list is one item with a `type` exactly if just one item of it keeps its own. */
  lemma {:induction false} ListShape(s: seq<Node>, kept: seq<Node>)
    requires Alternatives(s) && KeptOf(s, kept)
    ensures |kept| == 1 ==> Shaped(kept[0])
    ensures OneKeepsType(s) <==> |kept| == 1 && kept[0].Map? && "type" in kept[0].fields
    decreases s
  {
    if |kept| == 1 {
      var i := KeptOne(s, kept);
      ResultShape(s[i], kept[0]);
      assert forall j :: 0 <= j < |s| && !IsTypeNull(s[j]) ==> j == i;
    } else if i: nat :| i < |s| && !IsTypeNull(s[i]) && OthersNull(s, i) {
      OneIsKept(s, kept, i);
    }
  }

  ghost predicate AllShaped(kept: seq<Node>) {
    forall i :: 0 <= i < |kept| ==> Shaped(kept[i])
  }

  /** The schema can carry `nullable`. */
  predicate Carrier(version: Version, n: Node) {
    n.Map? && (version.V30Strict? ==> "type" in n.fields)
  }

  predicate SomeCarrier(version: Version, kept: seq<Node>) {
    exists i :: 0 <= i < |kept| && Carrier(version, kept[i])
  }

  lemma {:induction false} KeptShapes(s: seq<Node>, kept: seq<Node>)
    requires Alternatives(s) && KeptOf(s, kept)
    ensures AllShaped(kept) && (SomeCarrier(V30Strict, kept) <==> SomeTyped(s))
  {
    if s != [] {
      var front, last := s[..|s| - 1], s[|s| - 1];
      assert s == front + [last];
      assert SomeTyped(s) <==> SomeTyped(front) || RealTyped(last);
      if IsTypeNull(last) {
        KeptShapes(front, kept);
      } else {
        var n := |kept| - 1;
        KeptShapes(front, kept[..n]);
        ResultShape(last, kept[n]);
        assert kept == kept[..n] + [kept[n]];
        assert SomeCarrier(V30Strict, kept) <==> SomeCarrier(V30Strict, kept[..n]) || Carrier(V30Strict, kept[n]);
      }
    }
  }

  lemma AnyMapCarries(kept: seq<Node>)
    requires AllShaped(kept)
    ensures SomeCarrier(V30, kept) <==> kept != []
  {
    assert kept != [] ==> Carrier(V30, kept[0]);
  }

  // ---------------------------------------------------------------- the downgrade keeps the meaning

  lemma NullOnlyAccepts(n: Node, v: Json)
    requires NullOnly(n)
    ensures Accepts(V31, n, v) <==> v.JNull?
  {
  }

  predicate SameAt(a: map<string, Node>, b: map<string, Node>, k: string) {
    (k in a <==> k in b) && (k in a ==> a[k] == b[k])
  }

  lemma SameKeywords(version: Version, a: map<string, Node>, b: map<string, Node>, v: Json)
    requires SameAt(a, b, "anyOf") && SameAt(a, b, "items") && SameAt(a, b, "properties")
    ensures Keywords(version, Map(a), v) <==> Keywords(version, Map(b), v)
  {
  }

  lemma NullableAccepts(version: Version, n: Node, v: Json)
    requires version != V31 && Shaped(n)
    ensures Accepts(version, MakeNullable(n), v) <==> Accepts(version, n, v) || (v.JNull? && Carrier(version, n))
  {
    var m, m' := n.fields, MakeNullable(n).fields;
    assert m'["nullable"] == Bool(true);
    SameKeywords(version, m, m', v);
    if v.JNull? && "type" in m {
      assert Keywords(version, n, v);
    }
  }

  /** The input's list accepts what its real alternatives accept, and null if that is one of them. */
  lemma {:induction false} ListAccepts(s: seq<Node>, v: Json)
    requires Alternatives(s)
    ensures SomeAccepts(V31, s, v) <==> SomeReal(s, v) || (HasNull(s) && v.JNull?)
  {
    if s != [] {
      var front, last := s[..|s| - 1], s[|s| - 1];
      assert s == front + [last];
      ListAccepts(front, v);
      assert SomeReal(s, v) <==> SomeReal(front, v) || RealAccepts(last, v);
      assert HasNull(s) <==> HasNull(front) || IsTypeNull(last);
      if IsTypeNull(last) {
        NullOnlyAccepts(last, v);
      }
    }
  }

  /** The alternatives that are left accept what the real ones did. */
  lemma {:induction false} KeptAccept(version: Version, s: seq<Node>, kept: seq<Node>, v: Json)
    requires version != V31 && Alternatives(s) && AllCovered(version, s) && KeptOf(s, kept)
    ensures SomeAccepts(version, kept, v) <==> SomeReal(s, v)
    decreases s, 0
  {
    if s != [] {
      var front, last := s[..|s| - 1], s[|s| - 1];
      assert s == front + [last];
      assert SomeReal(s, v) <==> SomeReal(front, v) || RealAccepts(last, v);
      if IsTypeNull(last) {
        KeptAccept(version, front, kept, v);
      } else {
        assert Schema(last) && Covered(version, last);
        KeptAccept(version, front, kept[..|kept| - 1], v);
        MeaningKept(version, last, kept[|kept| - 1], v);
      }
    }
  }

  /** Marking them brings null back, if one of them can carry it. */
  lemma {:induction false} MarkedAccept(version: Version, hasNull: bool, kept: seq<Node>, items: seq<Node>, v: Json)
    requires version != V31 && Marked(hasNull, kept, items) && AllShaped(kept)
    ensures SomeAccepts(version, items, v) <==> SomeAccepts(version, kept, v) || (hasNull && v.JNull? && SomeCarrier(version, kept))
  {
    if kept != [] {
      var n := |kept| - 1;
      assert kept == kept[..n] + [kept[n]];
      MarkedAccept(version, hasNull, kept[..n], items[..n], v);
      assert SomeCarrier(version, kept) <==> SomeCarrier(version, kept[..n]) || Carrier(version, kept[n]);
      if hasNull {
        NullableAccepts(version, kept[n], v);
      }
    }
  }

  /** Merging the one alternative into its parent: only annotations meet. */
  lemma MergedAccepts(version: Version, parts: map<string, Node>, r: map<string, Node>, v: Json)
    requires version != V31 && Merged(parts, r) && "anyOf" in parts && OneMap(parts["anyOf"])
    requires "type" !in parts && "items" !in parts && "properties" !in parts && "nullable" !in parts
    ensures Accepts(version, Map(r), v) <==> SomeAccepts(version, parts["anyOf"].items, v)
  {
    var only := parts["anyOf"].items[0];
    assert SameAt(r, only.fields, "type") && SameAt(r, only.fields, "nullable");
    SameKeywords(version, r, only.fields, v);
    assert Accepts(version, Map(r), v) <==> Accepts(version, only, v);
    assert parts["anyOf"].items[..0] == [];
  }

  lemma {:induction false} ListKept(version: Version, list: Node, out: Node, v: Json)
    requires version != V31 && list.Arr? && Alternatives(list.items) && AllCovered(version, list.items) && Downgraded(list, out)
    ensures out.Arr?
    ensures SomeAccepts(version, out.items, v) <==> SomeAccepts(V31, list.items, v) && !(v.JNull? && Lost(version, list.items))
    decreases list, 0
  {
    var s := list.items;
    var kept: seq<Node> :| KeptOf(s, kept) && Marked(HasNull(s), kept, out.items);
    KeptAccept(version, s, kept, v);
    KeptShapes(s, kept);
    AnyMapCarries(kept);
    KeptNone(s, kept);
    MarkedAccept(version, HasNull(s), kept, out.items, v);
    ListAccepts(s, v);
    NothingReal(s, v);
  }

  lemma NothingReal(s: seq<Node>, v: Json)
    ensures OnlyNulls(s) <==> HasNull(s) && forall j :: 0 <= j < |s| ==> IsTypeNull(s[j])
    ensures OnlyNulls(s) ==> !SomeReal(s, v)
  {
    assert s != [] && IsTypeNull(s[0]) ==> HasNull(s);
  }

  lemma {:induction false} ChoiceKept(version: Version, n: Node, r: Node, v: Json)
    requires version != V31 && n.Map? && "anyOf" in n.fields && Choice(n) && "nullable" !in n.fields && Downgraded(n, r)
    requires AllCovered(version, AnyOf(n))
    ensures Accepts(version, r, v) <==> Accepts(V31, n, v) && !(v.JNull? && Lost(version, AnyOf(n)))
    decreases n, 0
  {
    var parts: map<string, Node> :| PartsOf(n, parts) && Merged(parts, r.fields);
    ListKept(version, n.fields["anyOf"], parts["anyOf"], v);
    if OneMap(parts["anyOf"]) {
      MergedAccepts(version, parts, r.fields, v);
    }
  }

  lemma {:induction false} TypedKept(version: Version, n: Node, r: Node, v: Json)
    requires version != V31 && Schema(n) && "anyOf" !in n.fields && Covered(version, n) && Downgraded(n, r)
    ensures Accepts(V31, n, v) <==> Accepts(version, r, v)
    decreases n, 0
  {
    var m := n.fields;
    TypedOf(n);
    var parts: map<string, Node> :| PartsOf(n, parts) && Merged(parts, r.fields);
    assert Downgraded(m["type"], parts["type"]);
    if "items" in m && v.JArray? {
      assert Part(n, m["items"]);
      ItemsKept(version, m["items"], parts["items"], v.elems);
    }
    if "properties" in m && v.JObject? {
      var props := m["properties"];
      assert Properties(n) == props.fields;
      forall k | k in props.fields
        ensures Schema(props.fields[k]) && Covered(version, props.fields[k])
      {
        assert Part(n, Properties(n)[k]);
      }
      PropertiesKept(version, props, parts["properties"], v.members);
    }
  }

  lemma {:induction false} ItemsKept(version: Version, items: Node, r: Node, elems: seq<Json>)
    requires version != V31 && Schema(items) && Covered(version, items) && Downgraded(items, r)
    ensures forall i :: 0 <= i < |elems| ==> (Accepts(V31, items, elems[i]) <==> Accepts(version, r, elems[i]))
    decreases items, 2
  {
    forall i | 0 <= i < |elems|
      ensures Accepts(V31, items, elems[i]) <==> Accepts(version, r, elems[i])
    {
      MeaningKept(version, items, r, elems[i]);
    }
  }

  lemma {:induction false} PropertiesKept(version: Version, props: Node, r: Node, members: map<string, Json>)
    requires version != V31 && props.Map? && "anyOf" !in props.fields && Downgraded(props, r)
    requires forall k :: k in props.fields ==> Schema(props.fields[k]) && Covered(version, props.fields[k])
    ensures r.Map? && r.fields.Keys == props.fields.Keys
    ensures forall k :: k in props.fields && k in members ==>
              (Accepts(V31, props.fields[k], members[k]) <==> Accepts(version, r.fields[k], members[k]))
    decreases props, 0
  {
    var parts: map<string, Node> :| PartsOf(props, parts) && Merged(parts, r.fields);
    forall k | k in props.fields && k in members
      ensures Accepts(V31, props.fields[k], members[k]) <==> Accepts(version, r.fields[k], members[k])
    {
      MeaningKept(version, props.fields[k], parts[k], members[k]);
    }
  }

  /** A value is accepted by the result exactly when the input accepts it: in the loose reading of
      `nullable` for every schema, in the strict one if no choice loses its null. */
  lemma {:induction false} MeaningKept(version: Version, n: Node, r: Node, v: Json)
    requires version != V31 && Schema(n) && Covered(version, n) && Downgraded(n, r)
    ensures Accepts(V31, n, v) <==> Accepts(version, r, v)
    decreases n, 1
  {
    if "anyOf" in n.fields {
      ChoiceOf(n);
      PartsCovered(version, n);
      ChoiceKept(version, n, r, v);
    } else {
      TypedKept(version, n, r, v);
    }
  }

  lemma PartsCovered(version: Version, n: Node)
    requires Covered(version, n)
    ensures AllCovered(version, AnyOf(n))
  {
    var s := AnyOf(n);
    forall i | 0 <= i < |s| && !IsTypeNull(s[i])
      ensures Covered(version, s[i])
    {
      assert Part(n, s[i]);
    }
  }

  /** A choice whose parts keep their meaning keeps its own exactly when its null is not lost: in the
      loose reading, when null is not its only alternative; in the strict one, when a real alternative
      has a `type` once converted, or accepts null itself. */
  lemma ChoiceKeptIff(version: Version, n: Node, r: Node)
    requires version != V31 && n.Map? && "anyOf" in n.fields && Choice(n) && "nullable" !in n.fields && Downgraded(n, r)
    requires AllCovered(version, AnyOf(n))
    ensures (forall v :: Accepts(V31, n, v) <==> Accepts(version, r, v)) <==> !Lost(version, AnyOf(n))
  {
    var s := AnyOf(n);
    forall v
      ensures Accepts(version, r, v) <==> Accepts(V31, n, v) && !(v.JNull? && Lost(version, s))
    {
      ChoiceKept(version, n, r, v);
    }
    if Lost(version, s) {
      NullLost(version, n, r);
    }
  }

  /** The value that tells the two apart. */
  lemma NullLost(version: Version, n: Node, r: Node)
    requires version != V31 && n.Map? && "anyOf" in n.fields && Choice(n) && "nullable" !in n.fields && Downgraded(n, r)
    requires AllCovered(version, AnyOf(n)) && Lost(version, AnyOf(n))
    ensures Accepts(V31, n, JNull) && !Accepts(version, r, JNull)
  {
    ListAccepts(AnyOf(n), JNull);
    NothingReal(AnyOf(n), JNull);
    ChoiceKept(version, n, r, JNull);
  }

  // Two documents that lose null.

  function OfType(t: string): Node {
    Map(map["type" := Str(t)])
  }

  function AnyOfThese(s: seq<Node>): Node {
    Map(map["anyOf" := Arr(s)])
  }

  function OnlyNull(): Node {
    AnyOfThese([OfType("null")])
  }

  /** Null, or a choice inside the choice. */
  function NullOrNested(): Node {
    AnyOfThese([OfType("null"), AnyOfThese([OfType("string"), OfType("integer")])])
  }

  lemma TypeCarried(t: string)
    requires t != "null"
    ensures Schema(OfType(t)) && Carried(OfType(t)) && Convertible(OfType(t)) && !Accepts(V31, OfType(t), JNull)
  {
    assert Typed(OfType(t));
    assert AnyOf(OfType(t)) == [] && Properties(OfType(t)) == map[];
  }

  lemma PairConvertible(a: Node, b: Node)
    requires a.Map? && b.Map? && !IsTypeNull(b) && (IsTypeNull(a) || Convertible(a)) && Convertible(b)
    ensures Convertible(AnyOfThese([a, b]))
  {
    var s := [a, b];
    assert s[..1] == [a] && s[..1][..0] == [];
    assert ItemsConvertible(s[..1]);
    assert Convertible(AnyOfThese(s).fields["anyOf"]);
  }

  lemma PairRejects(a: Node, b: Node, v: Json)
    requires !Accepts(V31, a, v) && !Accepts(V31, b, v)
    ensures !Accepts(V31, AnyOfThese([a, b]), v)
  {
    var s := [a, b];
    assert s[..1] == [a] && s[..1][..0] == [];
    assert !SomeAccepts(V31, s[..1], v);
    assert !SomeAccepts(V31, s, v);
  }

  lemma NestedCarried()
    ensures var nested := AnyOfThese([OfType("string"), OfType("integer")]);
            Schema(nested) && Carried(nested) && Convertible(nested) && !KeepsType(nested) && !Accepts(V31, nested, JNull)
  {
    var s := [OfType("string"), OfType("integer")];
    var nested := AnyOfThese(s);
    TypeCarried("string");
    TypeCarried("integer");
    PairConvertible(s[0], s[1]);
    PairRejects(s[0], s[1], JNull);
    assert !IsTypeNull(s[0]) && !IsTypeNull(s[1]);
    assert Alternatives(s) && Choice(nested) && AnyOf(nested) == s;
    assert !OneKeepsType(s);
  }

  /** Null beside one schema. */
  lemma NullBeside(inner: Node)
    requires Schema(inner) && Convertible(inner) && Carried(inner) && !IsTypeNull(inner)
    requires !KeepsType(inner) && !Accepts(V31, inner, JNull)
    ensures var n := AnyOfThese([OfType("null"), inner]);
            Schema(n) && Choice(n) && Convertible(n) && AllCovered(V30Strict, AnyOf(n)) && Lost(V30Strict, AnyOf(n))
  {
    var s := [OfType("null"), inner];
    var n := AnyOfThese(s);
    PairConvertible(s[0], s[1]);
    assert IsTypeNull(s[0]) && !IsTypeNull(s[1]);
    assert Alternatives(s) && Choice(n) && AnyOf(n) == s;
    assert !RealTyped(s[1]) && !RealAccepts(s[1], JNull);
  }

  /** The nested choice has no `type` to carry `nullable`: in the strict reading null is lost. */
  lemma NestedChoiceLosesNull() returns (r: Node)
    ensures Schema(NullOrNested()) && Downgraded(NullOrNested(), r)
    ensures Accepts(V31, NullOrNested(), JNull) && Accepts(V30, r, JNull) && !Accepts(V30Strict, r, JNull)
  {
    NestedCarried();
    var nested := AnyOfThese([OfType("string"), OfType("integer")]);
    NullBeside(nested);
    r := LosesNull(AnyOfThese([OfType("null"), nested]));
  }

  lemma LosesNull(n: Node) returns (r: Node)
    requires Schema(n) && "anyOf" in n.fields && Choice(n) && Convertible(n)
    requires AllCovered(V30Strict, AnyOf(n)) && Lost(V30Strict, AnyOf(n))
    ensures Downgraded(n, r)
    ensures Accepts(V31, n, JNull) && Accepts(V30, r, JNull) && !Accepts(V30Strict, r, JNull)
  {
    r := HasResult(n);
    NullLost(V30Strict, n, r);
    MeaningKept(V30, n, r, JNull);
  }

  /** With null as the only alternative there is nothing left at all: it is lost in both readings. */
  lemma OnlyNullIsLost() returns (r: Node)
    ensures Downgraded(OnlyNull(), r)
    ensures Accepts(V31, OnlyNull(), JNull) && !Accepts(V30, r, JNull) && !Accepts(V30Strict, r, JNull)
  {
    var n, s := OnlyNull(), [OfType("null")];
    assert IsTypeNull(s[0]) && Alternatives(s) && Choice(n) && AnyOf(n) == s;
    assert s[..0] == [] && ItemsConvertible(s);
    assert Convertible(n.fields["anyOf"]);
    r := HasResult(n);
    NullLost(V30, n, r);
    NothingReal(s, JNull);
    NullLost(V30Strict, n, r);
  }

  // ---------------------------------------------------------------- the strict reading as a whole

  /** Whatever the tool makes of the schema, it accepts the same in the strict reading. */
  ghost predicate KeptStrictly(n: Node) {
    forall r, v :: Downgraded(n, r) ==> (Accepts(V31, n, v) <==> Accepts(V30Strict, r, v))
  }

  /** That is so for the schema and all schemas in it. */
  ghost predicate KeptThroughout(n: Node)
    decreases n
  {
    KeptStrictly(n) && forall p :: Part(n, p) ==> (PartSmaller(n, p); KeptThroughout(p))
  }

  /** In the strict reading a schema and all schemas in it keep their meaning exactly when no choice
      among them loses its null. */
  lemma {:induction false} KeptThroughoutIff(n: Node)
    requires Schema(n) && Convertible(n)
    ensures KeptThroughout(n) <==> Carried(n)
    decreases n
  {
    forall p | Part(n, p)
      ensures KeptThroughout(p) <==> Carried(p)
    {
      PartSmaller(n, p);
      PartsAreSchemas(n, p);
      PartsConvertible(n, p);
      KeptThroughoutIff(p);
    }
    if Carried(n) {
      forall r, v | Downgraded(n, r)
        ensures Accepts(V31, n, v) <==> Accepts(V30Strict, r, v)
      {
        MeaningKept(V30Strict, n, r, v);
      }
    } else if KeptThroughout(n) {
      ChoiceOf(n);
      forall i | 0 <= i < |AnyOf(n)| && !IsTypeNull(AnyOf(n)[i])
        ensures Covered(V30Strict, AnyOf(n)[i])
      {
        assert Part(n, AnyOf(n)[i]);
      }
      var r := HasResult(n);
      NullLost(V30Strict, n, r);
      assert false;
    }
  }

  lemma PartsConvertible(n: Node, p: Node)
    requires Schema(n) && Convertible(n) && Part(n, p)
    ensures Convertible(p)
  {
    if i: nat :| i < |AnyOf(n)| && p == AnyOf(n)[i] && !IsTypeNull(p) {
      assert Convertible(n.fields["anyOf"]);
      ItemConvertible(AnyOf(n), i);
    } else if "properties" in n.fields {
      assert Convertible(n.fields["properties"]);
    }
  }

  lemma {:induction false} ItemConvertible(s: seq<Node>, i: nat)
    requires ItemsConvertible(s) && i < |s| && !IsTypeNull(s[i])
    ensures Convertible(s[i])
  {
    if i < |s| - 1 {
      ItemConvertible(s[..|s| - 1], i);
    }
  }
}
