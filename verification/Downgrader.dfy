/** Turning an OpenAPI 3.1 document into an OpenAPI 3.0 one: `{type: null}` alternatives become
    `nullable: true`, and an `anyOf` with one alternative left is merged into its parent.

    `Downgraded` relates a document to everything the tool can make of it.  There can be more than
    one result, because the tool walks over maps in no fixed order: when a merged alternative and
    its parent have a key in common, either value can win. */
module Downgrader {

  datatype Node =
    | Map(fields: map<string, Node>)
    | Arr(items: seq<Node>)
    | Str(s: string)
    | Bool(b: bool)
    | Num(n: int)
    | Null

  predicate IsTypeNull(n: Node) {
    n.Map? && "type" in n.fields && n.fields["type"] == Str("null")
  }

  function MakeNullable(n: Node): Node
    requires n.Map?
  {
    Map(n.fields["nullable" := Bool(true)])
  }

  /** The list holds one map and nothing else. */
  predicate OneMap(n: Node) {
    n.Arr? && |n.items| == 1 && n.items[0].Map?
  }

  // ---------------------------------------------------------------- when it succeeds

  predicate Convertible(n: Node) {
    match n
    case Map(m) => (forall k :: k in m ==> Convertible(m[k])) && ("anyOf" in m ==> m["anyOf"].Arr?)
    case Arr(s) => ItemsConvertible(s) && (HasNull(s) ==> OnlyMaps(s))
    case _ => true
  }

  predicate ItemsConvertible(s: seq<Node>) {
    s != [] ==>
      ItemsConvertible(s[..|s| - 1]) && (!IsTypeNull(s[|s| - 1]) ==> Convertible(s[|s| - 1]))
  }

  predicate HasNull(s: seq<Node>) {
    exists i :: 0 <= i < |s| && IsTypeNull(s[i])
  }

  predicate OnlyMaps(s: seq<Node>) {
    forall i :: 0 <= i < |s| ==> s[i].Map?
  }

  // ---------------------------------------------------------------- what it makes

  /** `n` can become `r`. */
  ghost predicate Downgraded(n: Node, r: Node)
    decreases n, 1
  {
    match n
    case Map(m) => r.Map? && exists parts: map<string, Node> :: PartsOf(n, parts) && Merged(parts, r.fields)
    case Arr(s) =>
      r.Arr? && exists kept: seq<Node> :: KeptOf(s, kept) && Marked(HasNull(s), kept, r.items)
    case _ => r == n
  }

  /** Every value is converted on its own. */
  ghost predicate PartsOf(n: Node, parts: map<string, Node>)
    requires n.Map?
    decreases n, 0
  {
    && parts.Keys == n.fields.Keys
    && forall k :: k in parts ==> Downgraded(n.fields[k], parts[k])
  }

  /** The `{type: null}` items are dropped, the others converted. */
  ghost predicate KeptOf(s: seq<Node>, kept: seq<Node>)
    decreases s, 0
  {
    if s == [] then kept == []
    else
      var front, last := s[..|s| - 1], s[|s| - 1];
      if IsTypeNull(last) then KeptOf(front, kept)
      else kept != [] && KeptOf(front, kept[..|kept| - 1]) && Downgraded(last, kept[|kept| - 1])
  }

  /** If an item was dropped, every other one becomes nullable. */
  ghost predicate Marked(hasNull: bool, kept: seq<Node>, items: seq<Node>) {
    && |items| == |kept|
    && forall i :: 0 <= i < |kept| ==> if hasNull then kept[i].Map? && items[i] == MakeNullable(kept[i]) else items[i] == kept[i]
  }

  /** An `anyOf` of one map gives way to that map's fields; each key they share with the parent goes
      one way or the other. */
  ghost predicate Merged(parts: map<string, Node>, r: map<string, Node>) {
    if "anyOf" in parts && OneMap(parts["anyOf"]) then
      var only := parts["anyOf"].items[0].fields;
      && r.Keys == parts.Keys - {"anyOf"} + only.Keys
      && forall k :: k in r ==> (k in only && r[k] == only[k]) || (k in parts && k != "anyOf" && r[k] == parts[k])
    else
      ("anyOf" in parts ==> parts["anyOf"].Arr?) && r == parts
  }

  /** Only a convertible document has a result. */
  lemma {:induction false} ResultsConvertible(n: Node, r: Node)
    requires Downgraded(n, r)
    ensures Convertible(n)
    decreases n, 1
  {
    match n
    case Map(m) =>
      var parts: map<string, Node> :| PartsOf(n, parts) && Merged(parts, r.fields);
      forall k | k in m
        ensures Convertible(m[k])
      {
        ResultsConvertible(m[k], parts[k]);
      }
      if "anyOf" in m {
        assert Downgraded(m["anyOf"], parts["anyOf"]);
      }
    case Arr(s) =>
      var kept: seq<Node> :| KeptOf(s, kept) && Marked(HasNull(s), kept, r.items);
      KeptConvertible(s, kept);
      KeptMaps(s, kept);
    case _ =>
  }

  lemma {:induction false} KeptConvertible(s: seq<Node>, kept: seq<Node>)
    requires KeptOf(s, kept)
    ensures ItemsConvertible(s)
    decreases s, 0
  {
    if s != [] {
      var front, last := s[..|s| - 1], s[|s| - 1];
      assert s == front + [last];
      if IsTypeNull(last) {
        KeptConvertible(front, kept);
      } else {
        KeptConvertible(front, kept[..|kept| - 1]);
        ResultsConvertible(last, kept[|kept| - 1]);
      }
    }
  }

  lemma {:induction false} KeptMaps(s: seq<Node>, kept: seq<Node>)
    requires KeptOf(s, kept)
    ensures OnlyMaps(kept) <==> OnlyMaps(s)
  {
    if s != [] {
      var front, last := s[..|s| - 1], s[|s| - 1];
      KeptMaps(front, if IsTypeNull(last) then kept else kept[..|kept| - 1]);
      assert s == front + [last];
      if !IsTypeNull(last) {
        assert kept == kept[..|kept| - 1] + [kept[|kept| - 1]];
      }
    }
  }

  /** And every convertible document has one. */
  lemma {:induction false} HasResult(n: Node) returns (r: Node)
    requires Convertible(n)
    ensures Downgraded(n, r)
    decreases n, 1
  {
    match n
    case Map(m) =>
      forall k | k in m
        ensures exists part :: Downgraded(m[k], part)
      {
        var part := HasResult(m[k]);
      }
      var parts := map k | k in m :: (var part :| Downgraded(m[k], part); part);
      assert PartsOf(n, parts);
      if "anyOf" in parts && OneMap(parts["anyOf"]) {
        r := Map(parts - {"anyOf"} + parts["anyOf"].items[0].fields);
      } else {
        r := Map(parts);
      }
      assert Merged(parts, r.fields);
    case Arr(s) =>
      var kept := HasKept(s);
      KeptMaps(s, kept);
      r := Arr(seq(|kept|, i requires 0 <= i < |kept| => if HasNull(s) && kept[i].Map? then MakeNullable(kept[i]) else kept[i]));
      assert Marked(HasNull(s), kept, r.items);
    case _ => r := n;
  }

  lemma {:induction false} HasKept(s: seq<Node>) returns (kept: seq<Node>)
    requires ItemsConvertible(s)
    ensures KeptOf(s, kept)
    decreases s, 0
  {
    kept := [];
    if s != [] {
      var front, last := s[..|s| - 1], s[|s| - 1];
      kept := HasKept(front);
      if !IsTypeNull(last) {
        var part := HasResult(last);
        assert (kept + [part])[..|kept|] == kept;
        kept := kept + [part];
      }
    }
  }

  // ---------------------------------------------------------------- what becomes of fields and items

  predicate SameField(a: Node, b: Node, key: string) {
    a.Map? && b.Map? && (key in a.fields <==> key in b.fields) && (key in a.fields ==> a.fields[key] == b.fields[key])
  }

  /** `item` is `part` with `nullable: true`; no other field is added, dropped or changed. */
  ghost predicate OnlyMarked(part: Node, item: Node) {
    && part.Map? && item.Map? && "nullable" in item.fields && item.fields["nullable"] == Bool(true)
    && forall key :: key != "nullable" ==> SameField(part, item, key)
  }

  lemma MarkedOnly(n: Node)
    requires n.Map?
    ensures OnlyMarked(n, MakeNullable(n))
  {
  }

  /** How many items there are other than `{type: null}`. */
  function CountReal(s: seq<Node>): nat {
    if s == [] then 0
    else
      var last := s[|s| - 1];
      CountReal(s[..|s| - 1]) + if last.Map? && "type" in last.fields && last.fields["type"] == Str("null") then 0 else 1
  }

  /** Every item other than `{type: null}` is kept, converted, and in its place. */
  lemma {:induction false} KeptAt(s: seq<Node>, kept: seq<Node>)
    requires KeptOf(s, kept)
    ensures |kept| == CountReal(s)
    ensures forall i :: 0 <= i < |s| && !IsTypeNull(s[i]) ==>
              CountReal(s[..i]) < |kept| && Downgraded(s[i], kept[CountReal(s[..i])])
    decreases s
  {
    if s != [] {
      var n := |s| - 1;
      var front, last := s[..n], s[n];
      assert forall i :: 0 <= i < n ==> s[..i] == front[..i] && s[i] == front[i];
      if IsTypeNull(last) {
        KeptAt(front, kept);
      } else {
        KeptAt(front, kept[..|kept| - 1]);
        forall i | 0 <= i < n && !IsTypeNull(s[i])
          ensures CountReal(s[..i]) < |kept| && Downgraded(s[i], kept[CountReal(s[..i])])
        {
          var j := CountReal(front[..i]);
          assert j < |kept| - 1 && Downgraded(front[i], kept[..|kept| - 1][j]);
        }
      }
    }
  }

  /** The result of a list: one item for each that is not `{type: null}`, in order; if there was such
      an item, each of them is a map and differs from the converted one in `nullable` alone. */
  lemma ItemsOf(s: seq<Node>, r: Node) returns (kept: seq<Node>)
    requires Downgraded(Arr(s), r)
    ensures r.Arr? && |r.items| == |kept| == CountReal(s)
    ensures forall i :: 0 <= i < |s| && !IsTypeNull(s[i]) ==>
              CountReal(s[..i]) < |kept| && Downgraded(s[i], kept[CountReal(s[..i])])
    ensures forall j :: 0 <= j < |kept| ==> if HasNull(s) then OnlyMarked(kept[j], r.items[j]) else r.items[j] == kept[j]
  {
    kept :| KeptOf(s, kept) && Marked(HasNull(s), kept, r.items);
    KeptAt(s, kept);
    forall j | 0 <= j < |kept|
      ensures if HasNull(s) then OnlyMarked(kept[j], r.items[j]) else r.items[j] == kept[j]
    {
      if HasNull(s) {
        MarkedOnly(kept[j]);
      }
    }
  }

  /** The result of a map without `anyOf`: the same keys, each value converted on its own. */
  lemma FieldsOf(n: Node, r: Node)
    requires n.Map? && "anyOf" !in n.fields && Downgraded(n, r)
    ensures r.Map? && r.fields.Keys == n.fields.Keys
    ensures forall key :: key in n.fields ==> Downgraded(n.fields[key], r.fields[key])
  {
    var parts: map<string, Node> :| PartsOf(n, parts) && Merged(parts, r.fields);
  }

  /** The result of a map with `anyOf`: if one map is left of the list, its fields join the others and
      the list goes; otherwise the list stays.  No field is lost, and none is made up. */
  lemma ChoiceFieldsOf(n: Node, r: Node) returns (list: Node)
    requires n.Map? && "anyOf" in n.fields && Downgraded(n, r)
    ensures Downgraded(n.fields["anyOf"], list) && list.Arr? && r.Map?
    ensures !(|list.items| == 1 && list.items[0].Map?) ==>
              && r.fields.Keys == n.fields.Keys && r.fields["anyOf"] == list
              && forall key :: key in n.fields && key != "anyOf" ==> Downgraded(n.fields[key], r.fields[key])
    ensures |list.items| == 1 && list.items[0].Map? ==>
              && r.fields.Keys == n.fields.Keys - {"anyOf"} + list.items[0].fields.Keys
              && forall key :: key in r.fields ==>
                   || (key in list.items[0].fields && r.fields[key] == list.items[0].fields[key])
                   || (key in n.fields && key != "anyOf" && Downgraded(n.fields[key], r.fields[key]))
  {
    var parts: map<string, Node> :| PartsOf(n, parts) && Merged(parts, r.fields);
    list := parts["anyOf"];
  }

  // ---------------------------------------------------------------- results are clean

  /** No array holds a `{type: null}`, and no `anyOf` is a list of one map, at any depth. */
  predicate Clean(n: Node) {
    match n
    case Map(m) => (forall k :: k in m ==> Clean(m[k])) && ("anyOf" in m ==> m["anyOf"].Arr? && !OneMap(m["anyOf"]))
    case Arr(s) => (forall i :: 0 <= i < |s| ==> Clean(s[i]) && !IsTypeNull(s[i]))
    case _ => true
  }

  lemma {:induction false} ResultsClean(n: Node, r: Node)
    requires Downgraded(n, r)
    ensures Clean(r)
    ensures !IsTypeNull(n) ==> !IsTypeNull(r)
    decreases n, 1
  {
    match n
    case Map(m) =>
      var parts: map<string, Node> :| PartsOf(n, parts) && Merged(parts, r.fields);
      forall k | k in m
        ensures Clean(parts[k]) && (!IsTypeNull(m[k]) ==> !IsTypeNull(parts[k]))
      {
        ResultsClean(m[k], parts[k]);
      }
      MergedClean(parts, r.fields);
      if "type" in m {
        assert Downgraded(m["type"], parts["type"]);
      }
    case Arr(s) =>
      var kept: seq<Node> :| KeptOf(s, kept) && Marked(HasNull(s), kept, r.items);
      KeptClean(s, kept);
      forall i | 0 <= i < |kept|
        ensures Clean(r.items[i]) && !IsTypeNull(r.items[i])
      {
      }
    case _ =>
  }

  lemma {:induction false} KeptClean(s: seq<Node>, kept: seq<Node>)
    requires KeptOf(s, kept)
    ensures forall i :: 0 <= i < |kept| ==> Clean(kept[i]) && !IsTypeNull(kept[i])
    decreases s, 0
  {
    if s != [] {
      var front, last := s[..|s| - 1], s[|s| - 1];
      if IsTypeNull(last) {
        KeptClean(front, kept);
      } else {
        var n := |kept| - 1;
        KeptClean(front, kept[..n]);
        ResultsClean(last, kept[n]);
        assert forall i :: 0 <= i < n ==> kept[i] == kept[..n][i];
      }
    }
  }

  lemma MergedClean(parts: map<string, Node>, r: map<string, Node>)
    requires Merged(parts, r) && forall k :: k in parts ==> Clean(parts[k])
    ensures Clean(Map(r))
    ensures IsTypeNull(Map(r)) ==> "type" in parts && parts["type"] == Str("null")
  {
    if "anyOf" in parts && OneMap(parts["anyOf"]) {
      var only := parts["anyOf"].items[0];
      assert Clean(parts["anyOf"]);
      assert Clean(only) && !IsTypeNull(only);
    }
  }

  // ---------------------------------------------------------------- clean documents stay as they are

  lemma {:induction false} CleanStays(n: Node, r: Node)
    requires Clean(n) && Downgraded(n, r)
    ensures r == n
    decreases n, 1
  {
    match n
    case Map(m) =>
      var parts: map<string, Node> :| PartsOf(n, parts) && Merged(parts, r.fields);
      forall k | k in m
        ensures parts[k] == m[k]
      {
        CleanStays(m[k], parts[k]);
      }
      assert parts == m;
    case Arr(s) =>
      var kept: seq<Node> :| KeptOf(s, kept) && Marked(HasNull(s), kept, r.items);
      CleanKept(s, kept);
    case _ =>
  }

  lemma {:induction false} CleanKept(s: seq<Node>, kept: seq<Node>)
    requires (forall i :: 0 <= i < |s| ==> Clean(s[i]) && !IsTypeNull(s[i])) && KeptOf(s, kept)
    ensures kept == s
    decreases s, 0
  {
    if s != [] {
      var front, last := s[..|s| - 1], s[|s| - 1];
      CleanKept(front, kept[..|kept| - 1]);
      CleanStays(last, kept[|kept| - 1]);
      assert kept == kept[..|kept| - 1] + [kept[|kept| - 1]];
      assert s == front + [last];
    }
  }

  lemma {:induction false} CleanConvertible(n: Node)
    requires Clean(n)
    ensures Convertible(n)
    decreases n, 1
  {
    match n
    case Map(m) =>
      forall k | k in m
        ensures Convertible(m[k])
      {
        CleanConvertible(m[k]);
      }
    case Arr(s) => CleanItemsConvertible(s);
    case _ =>
  }

  lemma {:induction false} CleanItemsConvertible(s: seq<Node>)
    requires forall i :: 0 <= i < |s| ==> Clean(s[i]) && !IsTypeNull(s[i])
    ensures ItemsConvertible(s)
    decreases s, 0
  {
    if s != [] {
      CleanItemsConvertible(s[..|s| - 1]);
      CleanConvertible(s[|s| - 1]);
    }
  }

  /** Whatever the tool makes of a document, it can read again, and changes no more. */
  lemma Idempotent(n: Node, r: Node, r': Node)
    requires Downgraded(n, r)
    ensures Convertible(r)
    ensures Downgraded(r, r') ==> r' == r
  {
    ResultsClean(n, r);
    CleanConvertible(r);
    if Downgraded(r, r') {
      CleanStays(r, r');
    }
  }
}
