/**
 * Dropping method variants from a schema, together with the local definitions
 * that only the dropped variants needed.
 */
module Strip {
  import opened Wrappers
  import opened Text
  import opened Json
  import opened Reachability
  import opened Seqs

  /** Keys below which the collector for the schema proper does not look. */
  const MAPS := {"definitions", "$defs"}

  /** The definition a local reference names: its first segment. */
  function Target(ref: string): string
    requires DEFS <= ref
  {
    Before(ref[|DEFS|..], '/')
  }

  function TargetHere(m: map<string, Value>): set<string> {
    set r | r in RefHere(m) && DEFS <= r :: Target(r)
  }

  /** Definitions that `v` refers to, looking below definition maps only if `skipMaps` is off. */
  function Targets(v: Value, skipMaps: bool): set<string> {
    match v
    case Obj(m) =>
      TargetHere(m) + set k, n | k in m && !(skipMaps && k in MAPS) && n in Targets(m[k], skipMaps) :: n
    case Arr(xs) => set i, n | 0 <= i < |xs| && n in Targets(xs[i], skipMaps) :: n
    case _ => {}
  }

  lemma {:induction false} TargetOfRef(v: Value, r: string)
    requires r in RefsIn(v) && DEFS <= r
    ensures Target(r) in Targets(v, false)
  {
    match v
    case Obj(m) =>
      if r !in RefHere(m) {
        var k :| k in m && r in RefsIn(m[k]);
        TargetOfRef(m[k], r);
      }
    case Arr(xs) =>
      var i :| 0 <= i < |xs| && r in RefsIn(xs[i]);
      TargetOfRef(xs[i], r);
  }

  /** `v` refers to the definition `n`, or to something inside of it, outside of its own `definitions` and `$defs`. */
  ghost predicate Mentions(v: Value, n: string) {
    match v
    case Obj(m) =>
      || ("$ref" in m && m["$ref"].Str? && (m["$ref"].s == "#/definitions/" + n || "#/definitions/" + n + "/" <= m["$ref"].s))
      || exists k :: k in m && k != "definitions" && k != "$defs" && Mentions(m[k], n)
    case Arr(xs) => exists i :: 0 <= i < |xs| && Mentions(xs[i], n)
    case _ => false
  }

  lemma TargetIs(r: string, n: string)
    requires '/' !in n
    ensures DEFS <= r && Target(r) == n <==> r == "#/definitions/" + n || "#/definitions/" + n + "/" <= r
  {
    assert DEFS == "#/definitions/";
    if r == DEFS + n {
      assert r[|DEFS|..] == n;
      BeforeAbsent(n, '/');
    } else if DEFS + n + "/" <= r {
      var rest := r[|DEFS + n + "/"|..];
      assert r[|DEFS|..] == n + ['/'] + rest;
      BeforeJoined(n, '/', rest);
    }
  }

  lemma TargetHereIs(m: map<string, Value>, n: string)
    requires '/' !in n
    ensures n in TargetHere(m) <==>
            "$ref" in m && m["$ref"].Str? && (m["$ref"].s == "#/definitions/" + n || "#/definitions/" + n + "/" <= m["$ref"].s)
  {
    assert REF == "$ref";
    if REF in m && m[REF].Str? {
      TargetIs(m[REF].s, n);
    }
  }

  /** What the collector for the schema proper finds is what the schema mentions outside of definition maps. */
  lemma {:induction false} CollectedIsMentioned(v: Value, n: string)
    requires '/' !in n
    ensures n in Targets(v, true) <==> Mentions(v, n)
  {
    match v
    case Obj(m) =>
      TargetHereIs(m, n);
      forall k | k in m
        ensures n in Targets(m[k], true) <==> Mentions(m[k], n)
      {
        CollectedIsMentioned(m[k], n);
      }
    case Arr(xs) =>
      forall i | 0 <= i < |xs|
        ensures n in Targets(xs[i], true) <==> Mentions(xs[i], n)
      {
        CollectedIsMentioned(xs[i], n);
      }
    case _ =>
  }

  lemma {:induction false} RefOfTarget(v: Value, n: string) returns (r: string)
    requires n in Targets(v, false)
    ensures r in RefsIn(v) && DEFS <= r && Target(r) == n
  {
    match v
    case Obj(m) =>
      if n in TargetHere(m) {
        r :| r in RefHere(m) && DEFS <= r && Target(r) == n;
      } else {
        var k :| k in m && n in Targets(m[k], false);
        r := RefOfTarget(m[k], n);
      }
    case Arr(xs) =>
      var i :| 0 <= i < |xs| && n in Targets(xs[i], false);
      r := RefOfTarget(xs[i], n);
  }

  /** From queue `q0` and marks `s0`, the names of `found` have been marked and the new ones queued. */
  ghost predicate Marked(q0: seq<string>, s0: set<string>, found: set<string>, q: seq<string>, s: set<string>) {
    && s == s0 + found
    && (forall n :: n in q <==> n in q0 || n in found - s0)
    && |q0| <= |q| && (|q0| < |q| ==> s0 != s)
  }

  lemma MarkedThen(q0: seq<string>, s0: set<string>, f1: set<string>, q1: seq<string>, s1: set<string>,
                   f2: set<string>, q2: seq<string>, s2: set<string>)
    requires Marked(q0, s0, f1, q1, s1) && Marked(q1, s1, f2, q2, s2)
    ensures Marked(q0, s0, f1 + f2, q2, s2)
  {
  }

  /** `collect_local_definition_ref_here`. */
  method CollectHere(m: map<string, Value>, q0: seq<string>, s0: set<string>) returns (q: seq<string>, s: set<string>)
    ensures Marked(q0, s0, TargetHere(m), q, s)
  {
    q, s := q0, s0;
    if REF in m && m[REF].Str? && DEFS <= m[REF].s {
      var name := Target(m[REF].s);
      assert TargetHere(m) == {name};
      if name !in s {
        q, s := q + [name], s + {name};
      }
    }
  }

  /** What the members of `m` with a key in `keys` refer to. */
  ghost function MemberTargets(m: map<string, Value>, keys: set<string>, skipMaps: bool): set<string> {
    set k, n | k in m && k in keys && !(skipMaps && k in MAPS) && n in Targets(m[k], skipMaps) :: n
  }

  ghost function ItemTargets(xs: seq<Value>, skipMaps: bool): set<string> {
    set i, n | 0 <= i < |xs| && n in Targets(xs[i], skipMaps) :: n
  }

  /**
   * `collect_local_definition_refs` and, with `skipMaps` on, `collect_local_definition_refs_excluding_maps`:
   * every newly met name is marked and queued.
   */
  method Collect(v: Value, skipMaps: bool, q0: seq<string>, s0: set<string>) returns (q: seq<string>, s: set<string>)
    ensures Marked(q0, s0, Targets(v, skipMaps), q, s)
    decreases v, 1
  {
    match v
    case Obj(m) =>
      var q1, s1 := CollectHere(m, q0, s0);
      q, s := CollectMembers(v, skipMaps, q1, s1);
      MarkedThen(q0, s0, TargetHere(m), q1, s1, MemberTargets(m, m.Keys, skipMaps), q, s);
      assert Targets(v, skipMaps) == TargetHere(m) + MemberTargets(m, m.Keys, skipMaps);
    case Arr(xs) =>
      q, s := CollectItems(v, skipMaps, q0, s0);
      assert Targets(v, skipMaps) == ItemTargets(xs, skipMaps);
    case _ =>
      q, s := q0, s0;
  }

  method CollectMembers(v: Value, skipMaps: bool, q0: seq<string>, s0: set<string>) returns (q: seq<string>, s: set<string>)
    requires v.Obj?
    ensures Marked(q0, s0, MemberTargets(v.fields, v.fields.Keys, skipMaps), q, s)
    decreases v, 0
  {
    q, s := q0, s0;
    var m, rest := v.fields, v.fields.Keys;
    while rest != {}
      invariant rest <= m.Keys
      invariant Marked(q0, s0, MemberTargets(m, m.Keys - rest, skipMaps), q, s)
      decreases rest
    {
      var k :| k in rest;
      ghost var before := MemberTargets(m, m.Keys - rest, skipMaps);
      rest := rest - {k};
      if skipMaps && k in MAPS {
        assert MemberTargets(m, m.Keys - rest, skipMaps) == before;
      } else {
        ghost var q1, s1 := q, s;
        q, s := Collect(m[k], skipMaps, q, s);
        MarkedThen(q0, s0, before, q1, s1, Targets(m[k], skipMaps), q, s);
        assert MemberTargets(m, m.Keys - rest, skipMaps) == before + Targets(m[k], skipMaps);
      }
    }
    assert m.Keys - rest == m.Keys;
  }

  method CollectItems(v: Value, skipMaps: bool, q0: seq<string>, s0: set<string>) returns (q: seq<string>, s: set<string>)
    requires v.Arr?
    ensures Marked(q0, s0, ItemTargets(v.items, skipMaps), q, s)
    decreases v, 0
  {
    q, s := q0, s0;
    var xs := v.items;
    for i := 0 to |xs|
      invariant Marked(q0, s0, ItemTargets(xs[..i], skipMaps), q, s)
    {
      ghost var before, q1, s1 := ItemTargets(xs[..i], skipMaps), q, s;
      q, s := Collect(xs[i], skipMaps, q, s);
      MarkedThen(q0, s0, before, q1, s1, Targets(xs[i], skipMaps), q, s);
      ItemTargetsStep(xs, i, skipMaps);
    }
    assert xs[..|xs|] == xs;
  }

  lemma ItemTargetsStep(xs: seq<Value>, i: nat, skipMaps: bool)
    requires i < |xs|
    ensures ItemTargets(xs[..i + 1], skipMaps) == ItemTargets(xs[..i], skipMaps) + Targets(xs[i], skipMaps)
  {
    var ys := xs[..i + 1];
    assert ys[i] == xs[i] && forall j :: 0 <= j < i ==> ys[j] == xs[..i][j];
    forall n | n in ItemTargets(xs[..i], skipMaps)
      ensures n in ItemTargets(ys, skipMaps)
    {
      var j :| 0 <= j < i && n in Targets(xs[..i][j], skipMaps);
      assert ys[j] == xs[..i][j];
    }
  }

  // ----- reachable_local_definitions

  function RefGraph(defs: map<string, Value>): Graph {
    map n | n in defs :: Targets(defs[n], false)
  }

  /** What the queue keeps: marks are reachable, and a marked name outside the queue has all its targets marked. */
  ghost predicate Sweeping(g: Graph, roots: set<string>, queue: seq<string>, reachable: set<string>) {
    && roots <= reachable <= Reach(g, roots)
    && (forall n :: n in queue ==> n in reachable)
    && (forall a, b :: a in reachable && a !in queue && Edge(g, a, b) ==> b in reachable)
  }

  lemma SweepVisit(g: Graph, roots: set<string>, q: seq<string>, s: set<string>, q2: seq<string>, s2: set<string>)
    requires q != [] && Sweeping(g, roots, q, s)
    requires Marked(q[..|q| - 1], s, if q[|q| - 1] in g then g[q[|q| - 1]] else {}, q2, s2)
    ensures Sweeping(g, roots, q2, s2)
    ensures Reach(g, roots) - s2 < Reach(g, roots) - s || (s2 == s && |q2| < |q|)
  {
    var name := q[|q| - 1];
    assert forall n :: n in q ==> n in q[..|q| - 1] || n == name;
    forall b | Edge(g, name, b)
      ensures b in Reach(g, roots)
    {
      ReachStep(g, roots, name, b);
    }
    if s2 != s {
      var n :| n in s2 && n !in s;
      assert n in Reach(g, roots) - s;
    }
  }

  lemma SweepStart(g: Graph, roots: set<string>, q: seq<string>, s: set<string>)
    requires Marked([], {}, roots, q, s)
    ensures Sweeping(g, roots, q, s)
  {
    ReachHasRoots(g, roots);
  }

  lemma SweepDone(g: Graph, roots: set<string>, s: set<string>)
    requires Sweeping(g, roots, [], s)
    ensures s == Reach(g, roots)
  {
    assert Closed(g, s);
    ReachIsLeast(g, roots, s);
  }

  /** One name taken off the queue. */
  method Visit(defs: map<string, Value>, ghost roots: set<string>, queue: seq<string>, reachable: set<string>)
    returns (q: seq<string>, s: set<string>)
    requires queue != [] && Sweeping(RefGraph(defs), roots, queue, reachable)
    ensures Sweeping(RefGraph(defs), roots, q, s)
    ensures Reach(RefGraph(defs), roots) - s < Reach(RefGraph(defs), roots) - reachable || (s == reachable && |q| < |queue|)
  {
    var name := queue[|queue| - 1];
    q, s := queue[..|queue| - 1], reachable;
    if name in defs {
      q, s := Collect(defs[name], false, q, s);
    }
    SweepVisit(RefGraph(defs), roots, queue, reachable, q, s);
  }

  /** The definitions reachable from the schema proper. */
  method ReachableLocalDefinitions(schema: Value, defs: map<string, Value>) returns (reachable: set<string>)
    ensures reachable == Reach(RefGraph(defs), Targets(schema, true))
  {
    ghost var g, roots := RefGraph(defs), Targets(schema, true);
    var queue: seq<string>;
    queue, reachable := Collect(schema, true, [], {});
    SweepStart(g, roots, queue, reachable);
    while queue != []
      invariant Sweeping(g, roots, queue, reachable)
      decreases Reach(g, roots) - reachable, |queue|
    {
      queue, reachable := Visit(defs, roots, queue, reachable);
    }
    SweepDone(g, roots, reachable);
  }

  // ----- strip_method_variants_from_json_schema

  /** The string a literal schema admits: its `const`, or else the first entry of its `enum`. */
  function StringLiteral(v: Value): Option<string> {
    match Field(v, "const")
    case Some(Str(s)) => Some(s)
    case _ =>
      match Field(v, "enum")
      case Some(Arr(xs)) => if xs != [] && xs[0].Str? then Some(xs[0].s) else None
      case _ => None
  }

  predicate IsMethodVariant(v: Value, methods: set<string>) {
    match Field(v, "properties")
    case Some(Obj(properties)) =>
      (match Field(Obj(properties), "method")
       case Some(schema) => StringLiteral(schema).Some? && StringLiteral(schema).value in methods
       case None => false)
    case _ => false
  }

  function KeepVariants(xs: seq<Value>, methods: set<string>): seq<Value> {
    Filter(xs, x => !IsMethodVariant(x, methods))
  }

  predicate HasVariants(schema: Value) {
    Field(schema, "oneOf").Some? && Field(schema, "oneOf").value.Arr?
  }

  predicate HasDefinitions(schema: Value) {
    Field(schema, "definitions").Some? && Field(schema, "definitions").value.Obj?
  }

  function Definitions(schema: Value): map<string, Value>
    requires HasDefinitions(schema)
  {
    schema.fields["definitions"].fields
  }

  /** The schema without the variants of `methods`, its definitions untouched. */
  function WithoutVariants(schema: Value, methods: set<string>): Value
    requires HasVariants(schema)
  {
    Obj(schema.fields["oneOf" := Arr(KeepVariants(schema.fields["oneOf"].items, methods))])
  }

  ghost function Stripped(schema: Value, methods: set<string>): Value {
    if !HasVariants(schema) then schema
    else
      var rest := WithoutVariants(schema, methods);
      if !HasDefinitions(rest) then rest
      else
        var defs := Definitions(rest);
        Obj(rest.fields["definitions" := Obj(Restrict(defs, Reach(RefGraph(defs), Targets(rest, true))))])
  }

  method StripMethodVariants(schema: Value, methods: set<string>) returns (stripped: Value)
    ensures stripped == Stripped(schema, methods)
  {
    if !HasVariants(schema) {
      return schema;
    }
    var rest := WithoutVariants(schema, methods);
    if !HasDefinitions(rest) {
      return rest;
    }
    var reachable := ReachableLocalDefinitions(rest, Definitions(rest));
    stripped := Obj(rest.fields["definitions" := Obj(Restrict(Definitions(rest), reachable))]);
  }

  // ----- which variants stay

  /** The method of a variant is `name`: by the `const` of its schema, or without one by the first entry of its `enum`. */
  predicate HasMethod(variant: Value, name: string) {
    && variant.Obj? && "properties" in variant.fields && variant.fields["properties"].Obj?
    && "method" in variant.fields["properties"].fields && variant.fields["properties"].fields["method"].Obj?
    && var schema := variant.fields["properties"].fields["method"].fields;
       if "const" in schema && schema["const"].Str? then schema["const"] == Str(name)
       else "enum" in schema && schema["enum"].Arr? && schema["enum"].items != [] && schema["enum"].items[0] == Str(name)
  }

  function WithoutMethods(methods: set<string>): Value -> bool {
    (variant: Value) => forall name :: name in methods ==> !HasMethod(variant, name)
  }

  lemma VariantHasMethod(v: Value, methods: set<string>)
    ensures IsMethodVariant(v, methods) <==> exists name :: name in methods && HasMethod(v, name)
  {
    if IsMethodVariant(v, methods) {
      assert HasMethod(v, StringLiteral(v.fields["properties"].fields["method"]).value);
    }
  }

  /** Of the variants in `oneOf` exactly those of no listed method stay, in their order. */
  lemma VariantsLeft(schema: Value, methods: set<string>)
    requires schema.Obj? && "oneOf" in schema.fields && schema.fields["oneOf"].Arr?
    ensures Field(Stripped(schema, methods), "oneOf") == Some(Arr(Filter(schema.fields["oneOf"].items, WithoutMethods(methods))))
  {
    var xs := schema.fields["oneOf"].items;
    forall i | 0 <= i < |xs|
      ensures !IsMethodVariant(xs[i], methods) == WithoutMethods(methods)(xs[i])
    {
      VariantHasMethod(xs[i], methods);
    }
    FilterAgrees(xs, x => !IsMethodVariant(x, methods), WithoutMethods(methods));
  }

  // ----- what stripping keeps

  /** Every local reference of `after` that had a definition in `defs` still has one. */
  ghost predicate NoNewDangling(defs: map<string, Value>, after: Value) {
    forall r :: r in RefsIn(after) && DEFS <= r && Target(r) in defs ==>
      HasDefinitions(after) && Target(r) in Definitions(after)
  }

  /** The schema around its definitions map. */
  function Around(schema: Value): Value
    requires schema.Obj?
  {
    Obj(schema.fields - {"definitions"})
  }

  lemma RefsAround(schema: Value, r: string)
    requires HasDefinitions(schema)
    ensures r in RefsIn(schema) <==> r in RefsIn(Around(schema)) || r in RefsIn(schema.fields["definitions"])
  {
    var m := schema.fields;
    assert RefHere(m) == RefHere(m - {"definitions"});
    if r in RefsIn(schema) && r !in RefHere(m) {
      var k :| k in m && r in RefsIn(m[k]);
      assert k == "definitions" || k in (m - {"definitions"});
    }
  }

  /** The definitions kept are exactly the ones a path of references leads to, each unchanged. */
  lemma StrippedKeepsReachable(schema: Value, methods: set<string>, n: string)
    requires HasVariants(schema) && HasDefinitions(schema)
    ensures HasDefinitions(Stripped(schema, methods))
    ensures n in Definitions(Stripped(schema, methods)) <==>
              n in Definitions(schema)
              && PathTo(RefGraph(Definitions(schema)), Targets(WithoutVariants(schema, methods), true), n)
    ensures n in Definitions(Stripped(schema, methods)) ==>
              Definitions(Stripped(schema, methods))[n] == Definitions(schema)[n]
  {
    var g, roots := RefGraph(Definitions(schema)), Targets(WithoutVariants(schema, methods), true);
    if PathTo(g, roots, n) {
      ReachIsInUniverse(g, roots, n);
    }
  }

  /** The definitions named outside the definitions map only where the collector does not look, below a nested map. */
  function Hidden(schema: Value): set<string>
    requires schema.Obj?
  {
    Targets(Around(schema), false) - Targets(schema, true)
  }

  /**
   * Stripping leaves no reference dangling exactly when every definition that is named only below a nested map is
   * reachable from those named elsewhere.
   */
  lemma StripNeverDanglesIff(schema: Value, methods: set<string>)
    requires HasVariants(schema) && HasDefinitions(schema) && REF !in Definitions(schema)
    ensures var rest, defs := WithoutVariants(schema, methods), Definitions(schema);
            NoNewDangling(defs, Stripped(schema, methods)) <==>
            forall n :: n in Hidden(rest) && n in defs ==> n in Reach(RefGraph(defs), Targets(rest, true))
  {
    var rest, defs, after := WithoutVariants(schema, methods), Definitions(schema), Stripped(schema, methods);
    var seen := Reach(RefGraph(defs), Targets(rest, true));
    ReachHasRoots(RefGraph(defs), Targets(rest, true));
    assert Around(after) == Around(rest);
    if NoNewDangling(defs, after) {
      forall n | n in Hidden(rest) && n in defs
        ensures n in seen
      {
        var r := RefOfTarget(Around(rest), n);
        RefsAround(after, r);
      }
    }
    if forall n :: n in Targets(Around(rest), false) && n in defs ==> n in seen {
      forall r | r in RefsIn(after) && DEFS <= r && Target(r) in defs
        ensures Target(r) in seen
      {
        RefsAround(after, r);
        if r in RefsIn(Around(rest)) {
          TargetOfRef(Around(rest), r);
        } else {
          DefinitionRefIsReachable(defs, Targets(rest, true), r);
        }
      }
    }
  }

  lemma DefinitionRefIsReachable(defs: map<string, Value>, roots: set<string>, r: string)
    requires REF !in defs && DEFS <= r && r in RefsIn(Obj(Restrict(defs, Reach(RefGraph(defs), roots))))
    ensures Target(r) in Reach(RefGraph(defs), roots)
  {
    var kept := Restrict(defs, Reach(RefGraph(defs), roots));
    RefsOfMember(kept, r);
    var n :| n in kept && r in RefsIn(kept[n]);
    TargetOfRef(defs[n], r);
    ReachStep(RefGraph(defs), roots, n, Target(r));
  }

  /** No object of `v` has a key at which the collector stops. */
  predicate NoNestedMaps(v: Value) {
    match v
    case Obj(m) => forall k :: k in m ==> k != "definitions" && k != "$defs" && NoNestedMaps(m[k])
    case Arr(xs) => forall i :: 0 <= i < |xs| ==> NoNestedMaps(xs[i])
    case _ => true
  }

  lemma {:induction false} NothingHidden(v: Value)
    requires NoNestedMaps(v)
    ensures Targets(v, true) == Targets(v, false)
  {
    match v
    case Obj(m) =>
      forall k | k in m
        ensures Targets(m[k], true) == Targets(m[k], false)
      {
        NothingHidden(m[k]);
      }
    case Arr(xs) =>
      forall i | 0 <= i < |xs|
        ensures Targets(xs[i], true) == Targets(xs[i], false)
      {
        NothingHidden(xs[i]);
      }
    case _ =>
  }

  lemma KeptVariantsHideNothing(xs: seq<Value>, methods: set<string>)
    requires NoNestedMaps(Arr(xs))
    ensures NoNestedMaps(Arr(KeepVariants(xs, methods)))
  {
    var ys := KeepVariants(xs, methods);
    forall i | 0 <= i < |ys|
      ensures NoNestedMaps(ys[i])
    {
      assert ys[i] in ys && ys[i] in xs;
      var j :| 0 <= j < |xs| && xs[j] == ys[i];
    }
  }

  /** With no key `definitions` or `$defs` but the root `definitions`, stripping never leaves a reference dangling. */
  lemma StripNeverDangles(schema: Value, methods: set<string>)
    requires HasVariants(schema) && HasDefinitions(schema) && REF !in Definitions(schema)
    requires NoNestedMaps(Around(schema))
    ensures NoNewDangling(Definitions(schema), Stripped(schema, methods))
  {
    var rest, defs := WithoutVariants(schema, methods), Definitions(schema);
    var around := Around(rest);
    forall k | k in around.fields
      ensures k != "definitions" && k != "$defs" && NoNestedMaps(around.fields[k])
    {
      assert k in Around(schema).fields && NoNestedMaps(Around(schema).fields[k]);
      if k == "oneOf" {
        KeptVariantsHideNothing(schema.fields[k].items, methods);
      }
    }
    NothingHidden(around);
    forall n | n in Targets(around, true)
      ensures n in Targets(rest, true)
    {
      assert TargetHere(around.fields) == TargetHere(rest.fields);
    }
    ReachHasRoots(RefGraph(defs), Targets(rest, true));
    StripNeverDanglesIff(schema, methods);
  }

  // ----- a schema whose reference is left dangling

  const HIDING_VARIANT := Obj(map["properties" := Obj(map["definitions" := Obj(map[REF := Str(DEFS + "A")])])])
  const HIDING_SCHEMA := Obj(map["oneOf" := Arr([HIDING_VARIANT]), "definitions" := Obj(map["A" := Obj(map[])])])

  lemma HiddenTarget()
    ensures Target(DEFS + "A") == "A"
    ensures Targets(Obj(map[REF := Str(DEFS + "A")]), false) == {"A"}
  {
    assert (DEFS + "A")[|DEFS|..] == "A";
    BeforeAbsent("A", '/');
    assert RefHere(map[REF := Str(DEFS + "A")]) == {DEFS + "A"};
  }

  lemma NothingSeen()
    ensures Targets(HIDING_SCHEMA, true) == {}
  {
    assert Targets(HIDING_VARIANT, true) == {};
    assert Targets(Arr([HIDING_VARIANT]), true) == {};
  }

  lemma StrippedHiding()
    ensures HasDefinitions(Stripped(HIDING_SCHEMA, {})) && Definitions(Stripped(HIDING_SCHEMA, {})) == map[]
    ensures Stripped(HIDING_SCHEMA, {}).fields["oneOf"] == Arr([HIDING_VARIANT])
  {
    NothingSeen();
    assert KeepVariants([HIDING_VARIANT], {}) == [HIDING_VARIANT];
    assert WithoutVariants(HIDING_SCHEMA, {}).fields == HIDING_SCHEMA.fields;
    NothingReached(RefGraph(Definitions(HIDING_SCHEMA)));
  }

  lemma HiddenRef()
    ensures DEFS + "A" in RefsIn(HIDING_VARIANT)
  {
    var field := Obj(map[REF := Str(DEFS + "A")]);
    assert DEFS + "A" in RefsIn(field);
    RefBelow(map["definitions" := field], "definitions", DEFS + "A");
    RefBelow(HIDING_VARIANT.fields, "properties", DEFS + "A");
  }

  /** A field called `definitions` hides the only reference to a definition, which is then dropped. */
  lemma FieldNamedDefinitionsDangles()
    ensures !NoNewDangling(Definitions(HIDING_SCHEMA), Stripped(HIDING_SCHEMA, {}))
  {
    var after := Stripped(HIDING_SCHEMA, {});
    StrippedHiding();
    HiddenTarget();
    HiddenRef();
    assert DEFS + "A" in RefsIn(Arr([HIDING_VARIANT])) by {
      assert [HIDING_VARIANT][0] == HIDING_VARIANT;
    }
    RefBelow(after.fields, "oneOf", DEFS + "A");
  }

  lemma RefBelow(m: map<string, Value>, k: string, r: string)
    requires k in m && r in RefsIn(m[k])
    ensures r in RefsIn(Obj(m))
  {
  }

  lemma NothingReached(g: Graph)
    ensures Reach(g, {}) == {}
  {
    ReachIsLeast(g, {}, {});
  }
}
