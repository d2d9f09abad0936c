/** Collecting generated schemas into one bundle whose references all resolve. */
module Bundle {
  import opened Wrappers
  import opened Text
  import opened Json
  import opened Namespaces

  datatype GeneratedSchema = GeneratedSchema(namespace: Option<string>, logicalName: string, value: Value, inV1Dir: bool)

  const IGNORED := {"Option<()>"}
  const SPECIAL := {"ClientNotification", "ClientRequest", "ServerNotification", "ServerRequest"}
  const SKIPPED := IGNORED + SPECIAL

  /** Adds titles to a definition, given its name. A parameter here: only its effect on references matters. */
  type Annotate = (Value, string) -> Value

  function ObjectKeys(v: Value, key: string): set<string> {
    match Field(v, key)
    case Some(Obj(m)) => m.Keys
    case _ => {}
  }

  function DefNames(s: GeneratedSchema): set<string> {
    ObjectKeys(s.value, "definitions")
  }

  /** The names a namespaced schema claims for its namespace. */
  function Claims(s: GeneratedSchema): set<string> {
    {s.logicalName} + DefNames(s) + ObjectKeys(s.value, "$defs")
  }

  /** The first claim wins. */
  function NamespacedTypes(schemas: seq<GeneratedSchema>): Types {
    if schemas == [] then map[]
    else
      var types, s := NamespacedTypes(schemas[..|schemas| - 1]), schemas[|schemas| - 1];
      if s.namespace.None? then types else AddClaims(types, Claims(s), s.namespace.value)
  }

  function AddClaims(types: Types, names: set<string>, ns: string): Types {
    (map n | n in names :: ns) + types
  }

  method CollectNamespacedTypes(schemas: seq<GeneratedSchema>) returns (types: Types)
    ensures types == NamespacedTypes(schemas)
  {
    types := map[];
    for i := 0 to |schemas|
      invariant types == NamespacedTypes(schemas[..i])
    {
      if schemas[i].namespace.Some? {
        types := ClaimAll(types, Claims(schemas[i]), schemas[i].namespace.value);
      }
      assert schemas[..i + 1][..i] == schemas[..i];
    }
    assert schemas[..|schemas|] == schemas;
  }

  /** `entry(name).or_insert(ns)` for every name, in any order. */
  method ClaimAll(types0: Types, names: set<string>, ns: string) returns (types: Types)
    ensures types == AddClaims(types0, names, ns)
  {
    types := types0;
    var rest := names;
    while rest != {}
      invariant rest <= names
      invariant types == AddClaims(types0, names - rest, ns)
      decreases rest
    {
      var n :| n in rest;
      if n !in types {
        types := types[n := ns];
      }
      rest := rest - {n};
    }
    assert names - rest == names;
  }

  lemma {:induction false} TypesOrigin(schemas: seq<GeneratedSchema>, n: string) returns (i: nat)
    requires n in NamespacedTypes(schemas)
    ensures i < |schemas| && schemas[i].namespace == Some(NamespacedTypes(schemas)[n]) && n in Claims(schemas[i])
  {
    var last := |schemas| - 1;
    if n in NamespacedTypes(schemas[..last]) {
      i := TypesOrigin(schemas[..last], n);
    } else {
      i := last;
    }
  }

  // ----- placing one schema

  function NamespaceEntry(defs: map<string, Value>, ns: string): Value {
    if ns in defs then defs[ns] else Obj(map[])
  }

  /** `insert_into_namespace`: equal definitions merge, different ones under one name are an error. */
  function InsertIntoNamespace(defs: map<string, Value>, ns: string, name: string, schema: Value): Result<map<string, Value>> {
    var entry := NamespaceEntry(defs, ns);
    if !entry.Obj? then Err("expected namespace to be an object")
    else if name !in entry.fields then Ok(defs[ns := Obj(entry.fields[name := schema])])
    else if entry.fields[name] == schema then Ok(defs)
    else Err("schema definition collision")
  }

  /** The schema with its references pointed at the bundle. */
  function Pointed(s: GeneratedSchema, types: Types): Value {
    if s.namespace.Some? then RewriteToNamespace(s.value, s.namespace.value)
    else RewriteToKnownNamespaces(s.value, types)
  }

  /** The namespace that a definition of `s` belongs to. */
  function TargetNamespace(s: GeneratedSchema, types: Types, name: string): Option<string> {
    if s.namespace.Some? then s.namespace
    else if s.inV1Dir then None
    else NamespaceFor(name, types)
  }

  /** The pointed schema without its definitions. */
  function Body(s: GeneratedSchema, types: Types): Value {
    var v := Pointed(s, types);
    if v.Obj? then Obj(v.fields - {"definitions"}) else v
  }

  /** The pointed definitions. */
  function Defs(s: GeneratedSchema, types: Types): map<string, Value> {
    match Field(Pointed(s, types), "definitions")
    case Some(Obj(m)) => m
    case _ => map[]
  }

  lemma DefsKeys(s: GeneratedSchema, types: Types)
    ensures Defs(s, types).Keys == DefNames(s)
  {
  }

  lemma DefRefs(s: GeneratedSchema, types: Types, n: string)
    requires n in Defs(s, types)
    ensures RefsIn(Defs(s, types)[n]) <= RefsIn(Pointed(s, types))
    ensures RefsIn(Body(s, types)) <= RefsIn(Pointed(s, types))
  {
    var v := Pointed(s, types);
    assert RefsIn(v.fields["definitions"]) <= RefsIn(v);
    BodyRefs(s, types);
  }

  lemma BodyRefs(s: GeneratedSchema, types: Types)
    ensures RefsIn(Body(s, types)) <= RefsIn(Pointed(s, types))
  {
  }

  /** The definitions that `s` adds, in the form in which it adds them; what a namespace owns is left to it. */
  function NewDefs(s: GeneratedSchema, types: Types, annotate: Annotate): map<string, Value> {
    map n | n in Defs(s, types) && n !in SKIPPED && TargetNamespace(s, types, n) == s.namespace ::
      var def := annotate(Defs(s, types)[n], n);
      if s.namespace.Some? then RewriteToNamespace(def, s.namespace.value) else def
  }

  /** Inserting all of `added` into a namespace, whatever the order. */
  function Merge(defs: map<string, Value>, ns: string, added: map<string, Value>): Result<map<string, Value>> {
    var entry := NamespaceEntry(defs, ns);
    if added == map[] then Ok(defs)
    else if !entry.Obj? then Err("expected namespace to be an object")
    else if exists n :: n in added && n in entry.fields && entry.fields[n] != added[n] then Err("schema definition collision")
    else Ok(defs[ns := Obj(entry.fields + added)])
  }

  lemma MergeOne(defs0: map<string, Value>, ns: string, a: map<string, Value>, n: string, v: Value)
    requires Merge(defs0, ns, a).Ok? && n !in a
    ensures var one, all := InsertIntoNamespace(Merge(defs0, ns, a).value, ns, n, v), Merge(defs0, ns, a[n := v]);
            one.Ok? == all.Ok? && (one.Ok? ==> one == all)
  {
    var entry, defs, b := NamespaceEntry(defs0, ns), Merge(defs0, ns, a).value, a[n := v];
    assert n in b && b[n] == v && forall k :: k in a ==> k in b && b[k] == a[k];
    if entry.Obj? {
      var now := NamespaceEntry(defs, ns);
      assert now.Obj? && now.fields == entry.fields + a;
      if n !in now.fields {
        assert now.fields[n := v] == entry.fields + b;
        assert defs[ns := Obj(entry.fields + b)] == defs0[ns := Obj(entry.fields + b)];
      } else if now.fields[n] == v {
        assert entry.fields + a == entry.fields + b;
        assert ns in defs && defs == defs0[ns := Obj(entry.fields + b)];
      }
    }
  }

  /** Placing the definitions in `added` of one schema at the root or in its namespace. */
  function Add(defs: map<string, Value>, namespace: Option<string>, added: map<string, Value>): Result<map<string, Value>> {
    if namespace.Some? then Merge(defs, namespace.value, added) else Ok(defs + added)
  }

  function AddOne(defs: map<string, Value>, namespace: Option<string>, n: string, v: Value): Result<map<string, Value>> {
    if namespace.Some? then InsertIntoNamespace(defs, namespace.value, n, v) else Ok(defs[n := v])
  }

  /** Placing one more definition continues the placement of the ones before it. */
  lemma AddStep(defs0: map<string, Value>, namespace: Option<string>, added: map<string, Value>, done: set<string>, n: string)
    requires n !in done && Add(defs0, namespace, Restrict(added, done)).Ok?
    ensures n !in added ==> Restrict(added, done + {n}) == Restrict(added, done)
    ensures n in added ==>
              var one, all := AddOne(Add(defs0, namespace, Restrict(added, done)).value, namespace, n, added[n]),
                              Add(defs0, namespace, Restrict(added, done + {n}));
              one.Ok? == all.Ok? && (one.Ok? ==> one == all)
  {
    if n in added {
      var a := Restrict(added, done);
      assert Restrict(added, done + {n}) == a[n := added[n]];
      if namespace.Some? {
        MergeOne(defs0, namespace.value, a, n, added[n]);
      } else {
        assert (defs0 + a)[n := added[n]] == defs0 + a[n := added[n]];
      }
    }
  }

  lemma AddFails(defs0: map<string, Value>, namespace: Option<string>, added: map<string, Value>, done: set<string>)
    requires Add(defs0, namespace, Restrict(added, done)).Err?
    ensures Add(defs0, namespace, added).Err?
  {
  }

  lemma AddNone(defs0: map<string, Value>, namespace: Option<string>, added: map<string, Value>)
    ensures Add(defs0, namespace, Restrict(added, {})) == Ok(defs0)
  {
    assert Restrict(added, {}) == map[];
    assert defs0 + map[] == defs0;
  }

  /** A definition of a root schema that a namespace owns: the schema's references to it are forced there. */
  predicate IsForced(s: GeneratedSchema, types: Types, n: string, ns: string) {
    n in DefNames(s) && n !in SKIPPED && s.namespace.None? && TargetNamespace(s, types, n) == Some(ns)
  }

  /**
   * The loop over the definitions of one schema, in any order. Definitions that a namespace owns are left
   * to that namespace and reported in `forced`.
   */
  method PlaceDefinitions(defs0: map<string, Value>, s: GeneratedSchema, types: Types, annotate: Annotate)
    returns (r: Result<map<string, Value>>, forced: seq<(string, string)>)
    ensures var all := Add(defs0, s.namespace, NewDefs(s, types, annotate)); r.Ok? == all.Ok? && (r.Ok? ==> r == all)
    ensures forall f :: f in forced ==> IsForced(s, types, f.0, f.1)
    ensures r.Ok? ==> forall n, ns :: IsForced(s, types, n, ns) ==> (n, ns) in forced
  {
    ghost var added := NewDefs(s, types, annotate);
    var todo := Defs(s, types);
    var defs := defs0;
    forced := [];
    DefsKeys(s, types);
    var rest := todo.Keys;
    ghost var done: set<string> := {};
    AddNone(defs0, s.namespace, added);
    while rest != {}
      invariant done !! rest && done + rest == todo.Keys
      invariant Add(defs0, s.namespace, Restrict(added, done)) == Ok(defs)
      invariant forall f :: f in forced ==> IsForced(s, types, f.0, f.1)
      invariant forall n, ns :: n in done && IsForced(s, types, n, ns) ==> (n, ns) in forced
      decreases rest
    {
      var n :| n in rest;
      rest := rest - {n};
      AddStep(defs0, s.namespace, added, done, n);
      if !(n in IGNORED || n in SPECIAL) {
        var def := annotate(todo[n], n);
        var target := TargetNamespace(s, types, n);
        if target == s.namespace {
          var schema := if target.Some? then RewriteToNamespace(def, target.value) else def;
          assert n in added && added[n] == schema;
          var placed := AddOne(defs, s.namespace, n, schema);
          if placed.Err? {
            AddFails(defs0, s.namespace, added, done + {n});
            return Err(placed.error), forced;
          }
          defs := placed.value;
        } else if (n, target.value) !in forced {
          forced := forced + [(n, target.value)];
        }
      }
      done := done + {n};
    }
    assert Restrict(added, done) == added;
    r := Ok(defs);
  }

  // ----- build_schema_bundle

  /** What one generated schema does to the definitions gathered so far. */
  function Absorb(defs: map<string, Value>, s: GeneratedSchema, types: Types, annotate: Annotate): Result<map<string, Value>> {
    if s.logicalName in IGNORED then Ok(defs)
    else
      match Add(defs, s.namespace, NewDefs(s, types, annotate))
      case Err(e) => Err(e)
      case Ok(placed) => AddOne(placed, s.namespace, s.logicalName, Body(s, types))
  }

  /** The definitions gathered from `schemas`, in their order. */
  function Gather(schemas: seq<GeneratedSchema>, types: Types, annotate: Annotate): Result<map<string, Value>> {
    if schemas == [] then Ok(map[])
    else
      match Gather(schemas[..|schemas| - 1], types, annotate)
      case Err(e) => Err(e)
      case Ok(defs) => Absorb(defs, schemas[|schemas| - 1], types, annotate)
  }

  function Document(defs: map<string, Value>): Value {
    Obj(map["$schema" := Str("http://json-schema.org/draft-07/schema#"),
            "title" := Str("CodexAppServerProtocol"),
            "type" := Str("object"),
            "definitions" := Obj(defs)])
  }

  /** No definition whose references are forced into a namespace carries the name of a namespace. */
  predicate ForcingIsIdle(s: GeneratedSchema, types: Types) {
    && Segments(types)
    && (s.namespace.None? ==> forall n :: n in DefNames(s) ==> '/' !in n && n !in types.Values)
  }

  type Forced = seq<(string, string)>

  ghost predicate OnlyForced(s: GeneratedSchema, types: Types, forced: Forced) {
    forall f :: f in forced ==> IsForced(s, types, f.0, f.1)
  }

  ghost predicate FullyForced(s: GeneratedSchema, types: Types, forced: Forced) {
    s.logicalName !in IGNORED ==> forall n, ns :: IsForced(s, types, n, ns) ==> (n, ns) in forced
  }

  /** The forced passes of one schema, one after the other. */
  function ForceAll(v: Value, forced: Forced): Value {
    if forced == [] then v
    else
      var last := forced[|forced| - 1];
      RewriteToForcedNamespace(ForceAll(v, forced[..|forced| - 1]), last.1, last.0)
  }

  /** What one schema does if its forced passes run in a given order. */
  function AbsorbForced(defs: map<string, Value>, s: GeneratedSchema, types: Types, annotate: Annotate, forced: Forced): Result<map<string, Value>> {
    if s.logicalName in IGNORED then Ok(defs)
    else
      match Add(defs, s.namespace, NewDefs(s, types, annotate))
      case Err(e) => Err(e)
      case Ok(placed) => AddOne(placed, s.namespace, s.logicalName, ForceAll(Body(s, types), forced))
  }

  /** Where no forced name is a namespace, the forced passes change nothing. */
  lemma {:induction false} ForceAllIdles(s: GeneratedSchema, types: Types, forced: Forced)
    requires ForcingIsIdle(s, types) && OnlyForced(s, types, forced)
    ensures ForceAll(Body(s, types), forced) == Body(s, types)
  {
    if forced != [] {
      var init, last := forced[..|forced| - 1], forced[|forced| - 1];
      assert last in forced && forall f :: f in init ==> f in forced;
      ForceAllIdles(s, types, init);
      BodyRefs(s, types);
      ForcedPassFixes(s.value, Body(s, types), types, last.1, last.0);
    }
  }

  /** The body of the loop over the generated schemas. */
  method AbsorbSchema(defs: map<string, Value>, s: GeneratedSchema, types: Types, annotate: Annotate)
    returns (r: Result<map<string, Value>>, forced: Forced)
    ensures r.Ok? == AbsorbForced(defs, s, types, annotate, forced).Ok?
    ensures r.Ok? ==> r == AbsorbForced(defs, s, types, annotate, forced)
    ensures OnlyForced(s, types, forced)
    ensures r.Ok? ==> FullyForced(s, types, forced)
  {
    if s.logicalName in IGNORED {
      return Ok(defs), [];
    }
    var placed;
    placed, forced := PlaceDefinitions(defs, s, types, annotate);
    if placed.Err? {
      return Err(placed.error), forced;
    }
    var body := Body(s, types);
    for j := 0 to |forced|
      invariant body == ForceAll(Body(s, types), forced[..j])
    {
      assert forced[..j + 1][..j] == forced[..j];
      body := RewriteToForcedNamespace(body, forced[j].1, forced[j].0);
    }
    assert forced[..|forced|] == forced;
    r := AddOne(placed.value, s.namespace, s.logicalName, body);
  }

  /** What all schemas do, each with its forced passes in a given order. */
  function GatherForced(schemas: seq<GeneratedSchema>, types: Types, annotate: Annotate, passes: seq<Forced>): Result<map<string, Value>>
    requires |passes| == |schemas|
  {
    if schemas == [] then Ok(map[])
    else
      match GatherForced(schemas[..|schemas| - 1], types, annotate, passes[..|passes| - 1])
      case Err(e) => Err(e)
      case Ok(defs) => AbsorbForced(defs, schemas[|schemas| - 1], types, annotate, passes[|passes| - 1])
  }

  /** The forced passes of each schema are those it calls for. */
  ghost predicate AreForced(schemas: seq<GeneratedSchema>, types: Types, passes: seq<Forced>) {
    |passes| == |schemas| &&
    forall i :: 0 <= i < |schemas| ==> OnlyForced(schemas[i], types, passes[i]) && FullyForced(schemas[i], types, passes[i])
  }

  /** No schema runs a forced pass that it does not call for. */
  ghost predicate NoneUncalled(schemas: seq<GeneratedSchema>, types: Types, passes: seq<Forced>) {
    |passes| == |schemas| && forall i :: 0 <= i < |schemas| ==> OnlyForced(schemas[i], types, passes[i])
  }

  lemma AreForcedSnoc(schemas: seq<GeneratedSchema>, types: Types, passes: seq<Forced>, i: nat, forced: Forced)
    requires i < |schemas| && AreForced(schemas[..i], types, passes)
    requires OnlyForced(schemas[i], types, forced) && FullyForced(schemas[i], types, forced)
    ensures AreForced(schemas[..i + 1], types, passes + [forced])
  {
  }

  /** Where no forced name is a namespace, the bundle does not depend on the forced passes. */
  lemma {:induction false} GatherIdles(schemas: seq<GeneratedSchema>, types: Types, annotate: Annotate, passes: seq<Forced>)
    requires NoneUncalled(schemas, types, passes) && forall i :: 0 <= i < |schemas| ==> ForcingIsIdle(schemas[i], types)
    ensures GatherForced(schemas, types, annotate, passes) == Gather(schemas, types, annotate)
  {
    if schemas != [] {
      var n := |schemas| - 1;
      GatherIdles(schemas[..n], types, annotate, passes[..n]);
      ForceAllIdles(schemas[n], types, passes[n]);
    }
  }

  lemma GatherSnoc(schemas: seq<GeneratedSchema>, types: Types, annotate: Annotate, passes: seq<Forced>, i: nat, forced: Forced)
    requires i < |schemas| && |passes| == i && GatherForced(schemas[..i], types, annotate, passes).Ok?
    ensures GatherForced(schemas[..i + 1], types, annotate, passes + [forced]) ==
            AbsorbForced(GatherForced(schemas[..i], types, annotate, passes).value, schemas[i], types, annotate, forced)
  {
    assert schemas[..i + 1][..i] == schemas[..i] && (passes + [forced])[..i] == passes;
  }

  /**
   * The bundle, `passes` being the forced passes that ran; or the failure of the last schema looked at, of which
   * `passes` holds the forced passes that were due.
   */
  method BuildSchemaBundle(schemas: seq<GeneratedSchema>, annotate: Annotate) returns (r: Result<Value>, passes: seq<Forced>)
    ensures r.Ok? ==> AreForced(schemas, NamespacedTypes(schemas), passes)
    ensures r.Ok? ==> GatherForced(schemas, NamespacedTypes(schemas), annotate, passes).Ok?
    ensures r.Ok? ==> r.value == Document(GatherForced(schemas, NamespacedTypes(schemas), annotate, passes).value)
    ensures r.Err? ==> |passes| <= |schemas| && NoneUncalled(schemas[..|passes|], NamespacedTypes(schemas), passes)
    ensures r.Err? ==> GatherForced(schemas[..|passes|], NamespacedTypes(schemas), annotate, passes).Err?
  {
    var types := CollectNamespacedTypes(schemas);
    var defs: map<string, Value> := map[];
    passes := [];
    for i := 0 to |schemas|
      invariant AreForced(schemas[..i], types, passes)
      invariant GatherForced(schemas[..i], types, annotate, passes) == Ok(defs)
    {
      var absorbed, forced := AbsorbSchema(defs, schemas[i], types, annotate);
      GatherSnoc(schemas, types, annotate, passes, i, forced);
      if absorbed.Err? {
        return Err(absorbed.error), passes + [forced];
      }
      AreForcedSnoc(schemas, types, passes, i, forced);
      passes := passes + [forced];
      defs := absorbed.value;
    }
    assert schemas[..|schemas|] == schemas;
    r := Ok(Document(defs));
  }

  // ----- every reference of the bundle resolves

  /** `w` is `v` with titles added or replaced by strings. */
  ghost predicate Titled(v: Value, w: Value) {
    match v
    case Obj(m) =>
      && w.Obj?
      && (forall k :: k in m ==> k in w.fields && (Titled(m[k], w.fields[k]) || (k == "title" && w.fields[k].Str?)))
      && (forall k :: k in w.fields && k !in m ==> k == "title" && w.fields[k].Str?)
    case Arr(xs) =>
      w.Arr? && |w.items| == |xs| && forall i :: 0 <= i < |xs| ==> Titled(xs[i], w.items[i])
    case _ => w == v
  }

  ghost predicate Tame(annotate: Annotate) {
    forall v, n :: Titled(v, annotate(v, n))
  }

  lemma {:induction false} TitledRefs(v: Value, w: Value, r: string)
    requires Titled(v, w) && r in RefsIn(w)
    ensures r in RefsIn(v)
  {
    match v
    case Obj(m) =>
      if r !in RefHere(w.fields) {
        var k :| k in w.fields && r in RefsIn(w.fields[k]);
        TitledRefs(m[k], w.fields[k], r);
      }
    case Arr(xs) =>
      var i :| 0 <= i < |xs| && r in RefsIn(w.items[i]);
      TitledRefs(xs[i], w.items[i], r);
    case _ =>
  }

  /** The path goes on below a title. */
  predicate PassesTitle(path: string)
    decreases |path|
  {
    var (key, rest) := SplitOnce(path, '/');
    rest.Some? && (key == "title" || PassesTitle(rest.value))
  }

  /** Titles change nothing about where a path leads, unless it leads through a title. */
  lemma {:induction false} TitledWalk(v: Value, w: Value, path: string)
    requires Titled(v, w) && Walk(v, path).Some? && !PassesTitle(path)
    ensures Walk(w, path).Some?
    decreases |path|
  {
    var (key, rest) := SplitOnce(path, '/');
    if rest.Some? {
      TitledWalk(Child(v, key).value, Child(w, key).value, rest.value);
    }
  }

  /** The name of the definition that a definition reference leads to or into. */
  function HeadName(r: string): string
    requires DEFS <= r
  {
    Before(r[|DEFS|..], '/')
  }

  /** The path of a reference inside of that definition, if it leads into it. */
  function Below(r: string): Option<string>
    requires DEFS <= r
  {
    SplitOnce(r[|DEFS|..], '/').1
  }

  function OwnDef(s: GeneratedSchema, n: string): Value
    requires n in DefNames(s)
  {
    s.value.fields["definitions"].fields[n]
  }

  ghost predicate LeadsInto(v: Value, path: string) {
    Walk(v, path).Some? && !PassesTitle(path)
  }

  /**
   * A definition reference of `s` names one of its own definitions, and one that the bundle keeps, or leads to a
   * place inside of one. The latter in a namespace only: there all schemas agree on the definition.
   */
  ghost predicate ResolvesLocally(s: GeneratedSchema) {
    forall r :: r in RefsIn(s.value) && DEFS <= r ==>
      && HeadName(r) in DefNames(s) - SKIPPED
      && (Below(r).Some? ==> s.namespace.Some? && LeadsInto(OwnDef(s, HeadName(r)), Below(r).value))
  }

  predicate PlainName(n: string) {
    '/' !in n && n != REF
  }

  /** The names of one input are path segments, and none is the name of a namespace. */
  ghost predicate PlaceableOne(s: GeneratedSchema, namespaces: set<string>) {
    && (forall n :: n in Claims(s) ==> PlainName(n) && n !in namespaces)
    && (s.namespace.Some? ==> PlainName(s.namespace.value) && s.namespace.value in namespaces)
  }

  /** What one input has to meet for its references to survive bundling. */
  ghost predicate AdmissibleOne(s: GeneratedSchema, types: Types, namespaces: set<string>) {
    && PlaceableOne(s, namespaces)
    && ResolvesLocally(s)
    && ObjectKeys(s.value, "$defs") == {}
    && (s.namespace.Some? ==> s.logicalName !in IGNORED)
    && (forall n :: n in DefNames(s) ==> NamespaceFor(n, types) == Get(types, n))
  }

  ghost function NamespaceNames(schemas: seq<GeneratedSchema>): set<string> {
    set i | 0 <= i < |schemas| && schemas[i].namespace.Some? :: schemas[i].namespace.value
  }

  ghost predicate Placeable(schemas: seq<GeneratedSchema>) {
    forall i :: 0 <= i < |schemas| ==> PlaceableOne(schemas[i], NamespaceNames(schemas))
  }

  ghost predicate Admissible(schemas: seq<GeneratedSchema>) {
    forall i :: 0 <= i < |schemas| ==> AdmissibleOne(schemas[i], NamespacedTypes(schemas), NamespaceNames(schemas))
  }

  lemma PlaceableTypes(schemas: seq<GeneratedSchema>)
    requires Placeable(schemas)
    ensures Segments(NamespacedTypes(schemas)) && NamespacedTypes(schemas).Values <= NamespaceNames(schemas)
  {
    var types := NamespacedTypes(schemas);
    forall n | n in types
      ensures '/' !in n && '/' !in types[n] && types[n] in NamespaceNames(schemas)
    {
      var i := TypesOrigin(schemas, n);
    }
  }

  lemma AdmissibleIsUnforced(schemas: seq<GeneratedSchema>, i: nat)
    requires Admissible(schemas) && i < |schemas|
    ensures ForcingIsIdle(schemas[i], NamespacedTypes(schemas))
  {
    PlaceableTypes(schemas);
    assert DefNames(schemas[i]) <= Claims(schemas[i]);
  }

  lemma {:induction false} GatherStaysFailed(schemas: seq<GeneratedSchema>, types: Types, annotate: Annotate, k: nat)
    requires k <= |schemas| && Gather(schemas[..k], types, annotate).Err?
    ensures Gather(schemas, types, annotate).Err?
  {
    if k < |schemas| {
      var init := schemas[..|schemas| - 1];
      assert init[..k] == schemas[..k];
      GatherStaysFailed(init, types, annotate, k);
    } else {
      assert schemas[..k] == schemas;
    }
  }

  /** Where building admissible inputs fails, so does gathering them. */
  lemma AdmissibleFails(schemas: seq<GeneratedSchema>, annotate: Annotate, passes: seq<Forced>)
    requires Admissible(schemas) && |passes| <= |schemas|
    requires NoneUncalled(schemas[..|passes|], NamespacedTypes(schemas), passes)
    requires GatherForced(schemas[..|passes|], NamespacedTypes(schemas), annotate, passes).Err?
    ensures Gather(schemas, NamespacedTypes(schemas), annotate).Err?
  {
    forall i | 0 <= i < |schemas|
      ensures ForcingIsIdle(schemas[i], NamespacedTypes(schemas))
    {
      AdmissibleIsUnforced(schemas, i);
    }
    GatherIdles(schemas[..|passes|], NamespacedTypes(schemas), annotate, passes);
    GatherStaysFailed(schemas, NamespacedTypes(schemas), annotate, |passes|);
  }

  /** What is built from admissible inputs is what is gathered from them, whatever the order of the forced passes. */
  lemma AdmissibleGathers(schemas: seq<GeneratedSchema>, annotate: Annotate, passes: seq<Forced>)
    requires Admissible(schemas) && AreForced(schemas, NamespacedTypes(schemas), passes)
    ensures GatherForced(schemas, NamespacedTypes(schemas), annotate, passes) == Gather(schemas, NamespacedTypes(schemas), annotate)
  {
    forall i | 0 <= i < |schemas|
      ensures ForcingIsIdle(schemas[i], NamespacedTypes(schemas))
    {
      AdmissibleIsUnforced(schemas, i);
    }
    GatherIdles(schemas, NamespacedTypes(schemas), annotate, passes);
  }

  /** `s` puts a definition called `n` at the place its namespace dictates. */
  predicate Provides(s: GeneratedSchema, types: Types, n: string) {
    && s.logicalName !in IGNORED
    && (n == s.logicalName || (n in DefNames(s) - SKIPPED && TargetNamespace(s, types, n) == s.namespace))
  }

  /** The reference under which a definition of a namespace is found. */
  function Address(namespace: Option<string>, n: string): string {
    DEFS + (if namespace.Some? then namespace.value + "/" + n else n)
  }

  /** `r` leads to the definition `n` that `s` provides, or to a place inside of it. */
  ghost predicate LeadsTo(s: GeneratedSchema, types: Types, n: string, below: Option<string>, r: string) {
    && Provides(s, types, n) && r == Address(s.namespace, n) + Tail(below)
    && match below
       case None => true
       case Some(path) => s.namespace.Some? && n in DefNames(s) - SKIPPED && LeadsInto(OwnDef(s, n), path)
  }

  /** A reference to something that one of the schemas provides, or a reference that is no definition reference. */
  ghost predicate Promised(schemas: seq<GeneratedSchema>, types: Types, r: string) {
    DEFS <= r ==> exists i, n, below :: 0 <= i < |schemas| && LeadsTo(schemas[i], types, n, below, r)
  }

  /** What follows the name of the definition in a reference. */
  function Tail(below: Option<string>): string {
    if below.Some? then "/" + below.value else ""
  }

  /** A reference is its head and what is below. */
  lemma HeadAndBelow(r: string)
    requires DEFS <= r
    ensures r[|DEFS|..] == HeadName(r) + Tail(Below(r))
  {
    var path := r[|DEFS|..];
    var head := Before(path, '/');
    if |head| < |path| {
      assert path == head + ("/" + path[|head| + 1..]);
    } else {
      assert path == head + "";
    }
  }

  lemma NothingBelow(r: string)
    requires DEFS <= r && Below(r).None?
    ensures r[|DEFS|..] == HeadName(r)
  {
  }

  /** A provided definition is found under its address. */
  lemma LeadsToProvided(schemas: seq<GeneratedSchema>, types: Types, i: nat, n: string)
    requires i < |schemas| && Provides(schemas[i], types, n)
    ensures Promised(schemas, types, Address(schemas[i].namespace, n))
  {
    var address := Address(schemas[i].namespace, n);
    assert address + "" == address;
    assert LeadsTo(schemas[i], types, n, None, address);
  }

  lemma OutsideNamespace(path: string, ns: string)
    requires '/' !in ns && ns + "/" <= path
    ensures Before(path, '/') == ns
  {
    assert path == ns + ['/'] + path[|ns| + 1..];
    BeforeJoined(ns, '/', path[|ns| + 1..]);
  }

  lemma AddressInNamespace(x: string, ns: string)
    requires DEFS <= x && '/' !in ns && HeadName(x) != ns
    ensures ToNamespace(x, ns) == Address(Some(ns), HeadName(x)) + Tail(Below(x))
  {
    var path, head, tail := x[|DEFS|..], HeadName(x), Tail(Below(x));
    if ns + "/" <= path {
      OutsideNamespace(path, ns);
      assert false;
    }
    HeadAndBelow(x);
    AddressAndTail(ns, head, tail);
  }

  lemma AddressAndTail(ns: string, head: string, tail: string)
    ensures DEFS + ns + "/" + (head + tail) == Address(Some(ns), head) + tail
  {
  }

  lemma AddressInKnownNamespace(x: string, types: Types)
    requires DEFS <= x && '/' !in x[|DEFS|..]
    ensures ToKnownNamespace(x, types) == Address(NamespaceFor(x[|DEFS|..], types), x[|DEFS|..])
  {
    var n := x[|DEFS|..];
    BeforeAbsent(n, '/');
    match NamespaceFor(n, types)
    case Some(ns) => assert DEFS + ns + "/" + n == DEFS + (ns + "/" + n);
    case None => assert x == DEFS + n;
  }

  lemma NamespacedRefIsPromised(schemas: seq<GeneratedSchema>, i: nat, x: string)
    requires Admissible(schemas) && i < |schemas| && schemas[i].namespace.Some?
    requires x in RefsIn(schemas[i].value)
    ensures Promised(schemas, NamespacedTypes(schemas), ToNamespace(x, schemas[i].namespace.value))
  {
    if DEFS <= x {
      var s, types := schemas[i], NamespacedTypes(schemas);
      assert s.namespace.value in NamespaceNames(schemas);
      NamespacedRefLeadsTo(s, types, NamespaceNames(schemas), x);
    }
  }

  lemma NamespacedRefLeadsTo(s: GeneratedSchema, types: Types, namespaces: set<string>, x: string)
    requires AdmissibleOne(s, types, namespaces) && s.namespace.Some?
    requires x in RefsIn(s.value) && DEFS <= x
    ensures LeadsTo(s, types, HeadName(x), Below(x), ToNamespace(x, s.namespace.value))
  {
    var n := HeadName(x);
    assert n in Claims(s);
    AddressInNamespace(x, s.namespace.value);
    assert Provides(s, types, n);
  }

  /** The schema that claimed a type also provides it. */
  lemma OwnerProvides(schemas: seq<GeneratedSchema>, n: string)
    requires Admissible(schemas) && n in NamespacedTypes(schemas) && n !in SKIPPED
    ensures Promised(schemas, NamespacedTypes(schemas), Address(Some(NamespacedTypes(schemas)[n]), n))
  {
    var i := TypesOrigin(schemas, n);
    assert AdmissibleOne(schemas[i], NamespacedTypes(schemas), NamespaceNames(schemas));
    LeadsToProvided(schemas, NamespacedTypes(schemas), i, n);
  }

  lemma RootRefIsPromised(schemas: seq<GeneratedSchema>, i: nat, x: string)
    requires Admissible(schemas) && i < |schemas| && schemas[i].namespace.None? && schemas[i].logicalName !in IGNORED
    requires x in RefsIn(schemas[i].value)
    ensures Promised(schemas, NamespacedTypes(schemas), ToKnownNamespace(x, NamespacedTypes(schemas)))
  {
    if DEFS <= x {
      var s, types, n := schemas[i], NamespacedTypes(schemas), x[|DEFS|..];
      OwnDefinition(s, types, NamespaceNames(schemas), x);
      AddressInKnownNamespace(x, types);
      if n in types {
        OwnerProvides(schemas, n);
      } else {
        LeadsToProvided(schemas, types, i, n);
      }
    }
  }

  lemma OwnDefinition(s: GeneratedSchema, types: Types, namespaces: set<string>, x: string)
    requires AdmissibleOne(s, types, namespaces) && x in RefsIn(s.value) && DEFS <= x
    requires s.namespace.None? && s.logicalName !in IGNORED
    ensures var n := x[|DEFS|..];
            && '/' !in n && n !in SKIPPED && NamespaceFor(n, types) == Get(types, n)
            && (n !in types ==> Provides(s, types, n))
  {
    NothingBelow(x);
    assert HeadName(x) in Claims(s);
  }

  lemma PointedRefsArePromised(schemas: seq<GeneratedSchema>, i: nat, r: string)
    requires Admissible(schemas) && i < |schemas| && schemas[i].logicalName !in IGNORED
    requires r in RefsIn(Pointed(schemas[i], NamespacedTypes(schemas)))
    ensures Promised(schemas, NamespacedTypes(schemas), r)
  {
    var s, types := schemas[i], NamespacedTypes(schemas);
    if s.namespace.Some? {
      var x := MappedFrom(s.value, r => ToNamespace(r, s.namespace.value), r);
      NamespacedRefIsPromised(schemas, i, x);
    } else {
      var x := MappedFrom(s.value, r => ToKnownNamespace(r, types), r);
      RootRefIsPromised(schemas, i, x);
    }
  }

  /** The bundle's definitions hold `n` at the root or, with the value `v`, in the namespace. */
  predicate Holds(defs: map<string, Value>, namespace: Option<string>, n: string, v: Value) {
    match namespace
    case Some(ns) => ns in defs && defs[ns].Obj? && n in defs[ns].fields && defs[ns].fields[n] == v
    case None => n in defs
  }

  lemma AddOneIsAdd(defs: map<string, Value>, namespace: Option<string>, n: string, v: Value)
    ensures var one, all := AddOne(defs, namespace, n, v), Add(defs, namespace, map[n := v]);
            one.Ok? == all.Ok? && (one.Ok? ==> one == all)
  {
    match namespace
    case Some(ns) =>
      MergeOne(defs, ns, map[], n, v);
      assert map[][n := v] == map[n := v];
    case None =>
      assert defs[n := v] == defs + map[n := v];
  }

  /** Nothing in the definitions is mistaken for a reference, and namespaces stay namespaces. */
  ghost predicate Shaped(defs: map<string, Value>, namespaces: set<string>) {
    && REF !in defs
    && forall ns :: ns in namespaces && ns in defs ==> defs[ns].Obj? && REF !in defs[ns].fields
  }

  ghost predicate AddsPlainly(namespace: Option<string>, added: map<string, Value>, namespaces: set<string>) {
    && (forall n :: n in added ==> n != REF && n !in namespaces)
    && (namespace.Some? ==> namespace.value in namespaces && namespace.value != REF)
  }

  lemma AddKeepsShape(defs: map<string, Value>, namespace: Option<string>, added: map<string, Value>, namespaces: set<string>)
    requires Shaped(defs, namespaces) && AddsPlainly(namespace, added, namespaces) && Add(defs, namespace, added).Ok?
    ensures Shaped(Add(defs, namespace, added).value, namespaces)
    ensures forall n :: n in added ==> Holds(Add(defs, namespace, added).value, namespace, n, added[n])
  {
  }

  lemma AddKeepsNames(defs: map<string, Value>, namespace: Option<string>, added: map<string, Value>, namespaces: set<string>,
                      where: Option<string>, n: string, v: Value)
    requires Shaped(defs, namespaces) && AddsPlainly(namespace, added, namespaces) && Add(defs, namespace, added).Ok?
    requires Holds(defs, where, n, v) && (where.Some? ==> where.value in namespaces)
    ensures Holds(Add(defs, namespace, added).value, where, n, v)
  {
  }

  lemma RefsOfUpdate(m: map<string, Value>, k: string, v: Value, r: string)
    requires k != REF && r in RefsIn(Obj(m[k := v]))
    ensures r in RefsIn(Obj(m)) || r in RefsIn(v)
  {
  }

  lemma RefsOfUnion(m: map<string, Value>, added: map<string, Value>, r: string)
    requires REF !in added && r in RefsIn(Obj(m + added))
    ensures r in RefsIn(Obj(m)) || exists n :: n in added && r in RefsIn(added[n])
  {
  }

  /** Adding definitions brings in no reference but theirs. */
  lemma AddRefs(defs: map<string, Value>, namespace: Option<string>, added: map<string, Value>, namespaces: set<string>, r: string)
    requires Shaped(defs, namespaces) && AddsPlainly(namespace, added, namespaces) && Add(defs, namespace, added).Ok?
    requires r in RefsIn(Obj(Add(defs, namespace, added).value))
    ensures r in RefsIn(Obj(defs)) || exists n :: n in added && r in RefsIn(added[n])
  {
    match namespace
    case Some(ns) =>
      if added != map[] {
        var entry := NamespaceEntry(defs, ns);
        RefsOfUpdate(defs, ns, Obj(entry.fields + added), r);
        if r in RefsIn(Obj(entry.fields + added)) {
          RefsOfUnion(entry.fields, added, r);
          if r in RefsIn(entry) {
            assert ns in defs;
          }
        }
      }
    case None =>
      RefsOfUnion(defs, added, r);
  }

  lemma NewDefsRefs(s: GeneratedSchema, types: Types, annotate: Annotate, n: string)
    requires Tame(annotate) && n in NewDefs(s, types, annotate)
    ensures RefsIn(NewDefs(s, types, annotate)[n]) <= RefsIn(Pointed(s, types))
    ensures s.namespace.Some? ==> NewDefs(s, types, annotate)[n] == annotate(Defs(s, types)[n], n)
  {
    DefRefs(s, types, n);
    var def := annotate(Defs(s, types)[n], n);
    forall r | r in RefsIn(def)
      ensures r in RefsIn(Pointed(s, types))
    {
      TitledRefs(Defs(s, types)[n], def, r);
    }
    if s.namespace.Some? {
      RewriteToNamespaceFixes(s.value, def, s.namespace.value);
    }
  }

  /** What a schema adds in its two steps, seen as one map each. */
  lemma AddsOfSchema(s: GeneratedSchema, types: Types, namespaces: set<string>, annotate: Annotate)
    requires PlaceableOne(s, namespaces)
    ensures AddsPlainly(s.namespace, NewDefs(s, types, annotate), namespaces)
    ensures AddsPlainly(s.namespace, map[s.logicalName := Body(s, types)], namespaces)
    ensures forall n :: Provides(s, types, n) ==> n == s.logicalName || n in NewDefs(s, types, annotate)
  {
    DefsKeys(s, types);
    assert forall n :: n in DefNames(s) ==> n in Claims(s);
    assert s.logicalName in Claims(s);
  }

  ghost predicate HoldsAllOf(defs: map<string, Value>, s: GeneratedSchema, types: Types, annotate: Annotate) {
    s.logicalName !in IGNORED ==>
      && Holds(defs, s.namespace, s.logicalName, Body(s, types))
      && forall n :: n in NewDefs(s, types, annotate) ==> Holds(defs, s.namespace, n, NewDefs(s, types, annotate)[n])
  }

  /** Everything gathered from a prefix of the inputs is in place. */
  ghost predicate Placed(defs: map<string, Value>, schemas: seq<GeneratedSchema>, k: nat, annotate: Annotate)
    requires k <= |schemas|
  {
    && Shaped(defs, NamespaceNames(schemas))
    && (forall i :: 0 <= i < k ==> HoldsAllOf(defs, schemas[i], NamespacedTypes(schemas), annotate))
  }

  lemma AddKeepsSchema(defs: map<string, Value>, namespace: Option<string>, added: map<string, Value>, namespaces: set<string>,
                       s: GeneratedSchema, types: Types, annotate: Annotate)
    requires Shaped(defs, namespaces) && AddsPlainly(namespace, added, namespaces) && Add(defs, namespace, added).Ok?
    requires HoldsAllOf(defs, s, types, annotate) && (s.namespace.Some? ==> s.namespace.value in namespaces)
    ensures HoldsAllOf(Add(defs, namespace, added).value, s, types, annotate)
  {
    if s.logicalName !in IGNORED {
      AddKeepsNames(defs, namespace, added, namespaces, s.namespace, s.logicalName, Body(s, types));
      forall n | n in NewDefs(s, types, annotate)
        ensures Holds(Add(defs, namespace, added).value, s.namespace, n, NewDefs(s, types, annotate)[n])
      {
        AddKeepsNames(defs, namespace, added, namespaces, s.namespace, n, NewDefs(s, types, annotate)[n]);
      }
    }
  }

  /** One `Add` of a schema leaves everything in place. */
  lemma AddKeepsPlaced(defs: map<string, Value>, schemas: seq<GeneratedSchema>, k: nat, annotate: Annotate,
                       namespace: Option<string>, added: map<string, Value>)
    requires k <= |schemas| && Placeable(schemas) && Placed(defs, schemas, k, annotate) && Add(defs, namespace, added).Ok?
    requires AddsPlainly(namespace, added, NamespaceNames(schemas))
    ensures Placed(Add(defs, namespace, added).value, schemas, k, annotate)
  {
    var types, next := NamespacedTypes(schemas), Add(defs, namespace, added).value;
    AddKeepsShape(defs, namespace, added, NamespaceNames(schemas));
    forall i | 0 <= i < k
      ensures HoldsAllOf(next, schemas[i], types, annotate)
    {
      AddKeepsSchema(defs, namespace, added, NamespaceNames(schemas), schemas[i], types, annotate);
    }
  }

  /** After its two steps, everything a schema provides is in place. */
  lemma AbsorbProvides(defs: map<string, Value>, s: GeneratedSchema, types: Types, namespaces: set<string>, annotate: Annotate)
    requires PlaceableOne(s, namespaces)
    requires Shaped(defs, namespaces) && Add(defs, s.namespace, NewDefs(s, types, annotate)).Ok?
    requires var placed := Add(defs, s.namespace, NewDefs(s, types, annotate)).value;
             Add(placed, s.namespace, map[s.logicalName := Body(s, types)]).Ok?
    ensures var placed := Add(defs, s.namespace, NewDefs(s, types, annotate)).value;
            HoldsAllOf(Add(placed, s.namespace, map[s.logicalName := Body(s, types)]).value, s, types, annotate)
  {
    var added, last := NewDefs(s, types, annotate), map[s.logicalName := Body(s, types)];
    AddsOfSchema(s, types, namespaces, annotate);
    AddKeepsShape(defs, s.namespace, added, namespaces);
    var placed := Add(defs, s.namespace, added).value;
    AddKeepsShape(placed, s.namespace, last, namespaces);
    forall n | n in added
      ensures Holds(Add(placed, s.namespace, last).value, s.namespace, n, added[n])
    {
      AddKeepsNames(placed, s.namespace, last, namespaces, s.namespace, n, added[n]);
    }
  }

  lemma AbsorbKeepsPlaced(defs: map<string, Value>, schemas: seq<GeneratedSchema>, k: nat, annotate: Annotate)
    requires k < |schemas| && Placeable(schemas) && Placed(defs, schemas, k, annotate)
    requires schemas[k].logicalName !in IGNORED && Absorb(defs, schemas[k], NamespacedTypes(schemas), annotate).Ok?
    ensures Placed(Absorb(defs, schemas[k], NamespacedTypes(schemas), annotate).value, schemas, k + 1, annotate)
  {
    var s, types, names := schemas[k], NamespacedTypes(schemas), NamespaceNames(schemas);
    var added, last := NewDefs(s, types, annotate), map[s.logicalName := Body(s, types)];
    var placed := Add(defs, s.namespace, added).value;
    AddsOfSchema(s, types, names, annotate);
    AddKeepsPlaced(defs, schemas, k, annotate, s.namespace, added);
    AddOneIsAdd(placed, s.namespace, s.logicalName, Body(s, types));
    AddKeepsPlaced(placed, schemas, k, annotate, s.namespace, last);
    AbsorbProvides(defs, s, types, names, annotate);
    PlacedStep(Add(placed, s.namespace, last).value, schemas, k, annotate);
  }

  lemma PlacedStep(defs: map<string, Value>, schemas: seq<GeneratedSchema>, k: nat, annotate: Annotate)
    requires k < |schemas| && Placed(defs, schemas, k, annotate)
    requires HoldsAllOf(defs, schemas[k], NamespacedTypes(schemas), annotate)
    ensures Placed(defs, schemas, k + 1, annotate)
  {
  }

  lemma GatherStep(schemas: seq<GeneratedSchema>, k: nat, types: Types, annotate: Annotate) returns (before: map<string, Value>)
    requires k < |schemas| && Gather(schemas[..k + 1], types, annotate).Ok?
    ensures Gather(schemas[..k], types, annotate) == Ok(before)
    ensures Absorb(before, schemas[k], types, annotate) == Gather(schemas[..k + 1], types, annotate)
  {
    assert schemas[..k + 1][..k] == schemas[..k];
    before := Gather(schemas[..k], types, annotate).value;
  }

  lemma {:induction false} GatherIsPlaced(schemas: seq<GeneratedSchema>, k: nat, annotate: Annotate, defs: map<string, Value>)
    requires k <= |schemas| && Placeable(schemas)
    requires Gather(schemas[..k], NamespacedTypes(schemas), annotate) == Ok(defs)
    ensures Placed(defs, schemas, k, annotate)
  {
    if k == 0 {
      assert schemas[..k] == [] && defs == map[];
    } else {
      var before := GatherStep(schemas, k - 1, NamespacedTypes(schemas), annotate);
      GatherIsPlaced(schemas, k - 1, annotate, before);
      if schemas[k - 1].logicalName in IGNORED {
        PlacedStep(before, schemas, k - 1, annotate);
      } else {
        AbsorbKeepsPlaced(before, schemas, k - 1, annotate);
      }
    }
  }

  ghost predicate RefsArePromised(defs: map<string, Value>, schemas: seq<GeneratedSchema>) {
    forall r :: r in RefsIn(Obj(defs)) ==> Promised(schemas, NamespacedTypes(schemas), r)
  }

  lemma SchemaRefsArePromised(schemas: seq<GeneratedSchema>, k: nat, annotate: Annotate)
    requires k < |schemas| && Admissible(schemas) && Tame(annotate) && schemas[k].logicalName !in IGNORED
    ensures var s, types := schemas[k], NamespacedTypes(schemas);
            && (forall n, r :: n in NewDefs(s, types, annotate) && r in RefsIn(NewDefs(s, types, annotate)[n]) ==>
                  Promised(schemas, types, r))
            && (forall r :: r in RefsIn(Body(s, types)) ==> Promised(schemas, types, r))
  {
    var s, types := schemas[k], NamespacedTypes(schemas);
    forall n, r | n in NewDefs(s, types, annotate) && r in RefsIn(NewDefs(s, types, annotate)[n])
      ensures Promised(schemas, types, r)
    {
      NewDefsRefs(s, types, annotate, n);
      PointedRefsArePromised(schemas, k, r);
    }
    BodyRefs(s, types);
    forall r | r in RefsIn(Body(s, types))
      ensures Promised(schemas, types, r)
    {
      PointedRefsArePromised(schemas, k, r);
    }
  }

  lemma AddKeepsPromises(defs: map<string, Value>, schemas: seq<GeneratedSchema>, namespace: Option<string>, added: map<string, Value>)
    requires Shaped(defs, NamespaceNames(schemas)) && RefsArePromised(defs, schemas) && Add(defs, namespace, added).Ok?
    requires AddsPlainly(namespace, added, NamespaceNames(schemas))
    requires forall n, r :: n in added && r in RefsIn(added[n]) ==> Promised(schemas, NamespacedTypes(schemas), r)
    ensures RefsArePromised(Add(defs, namespace, added).value, schemas)
  {
    forall r | r in RefsIn(Obj(Add(defs, namespace, added).value))
      ensures Promised(schemas, NamespacedTypes(schemas), r)
    {
      AddRefs(defs, namespace, added, NamespaceNames(schemas), r);
    }
  }

  lemma AbsorbKeepsPromises(defs: map<string, Value>, schemas: seq<GeneratedSchema>, k: nat, annotate: Annotate)
    requires k < |schemas| && Admissible(schemas) && Tame(annotate)
    requires Shaped(defs, NamespaceNames(schemas)) && RefsArePromised(defs, schemas)
    requires schemas[k].logicalName !in IGNORED && Absorb(defs, schemas[k], NamespacedTypes(schemas), annotate).Ok?
    ensures RefsArePromised(Absorb(defs, schemas[k], NamespacedTypes(schemas), annotate).value, schemas)
  {
    var s, types, names := schemas[k], NamespacedTypes(schemas), NamespaceNames(schemas);
    var added, last := NewDefs(s, types, annotate), map[s.logicalName := Body(s, types)];
    var placed := Add(defs, s.namespace, added).value;
    assert PlaceableOne(s, names);
    AddsOfSchema(s, types, names, annotate);
    SchemaRefsArePromised(schemas, k, annotate);
    AddKeepsPromises(defs, schemas, s.namespace, added);
    AddKeepsShape(defs, s.namespace, added, names);
    AddOneIsAdd(placed, s.namespace, s.logicalName, Body(s, types));
    AddKeepsPromises(placed, schemas, s.namespace, last);
  }

  /** Everything gathered from the inputs is in place and refers only to what some input provides. */
  lemma {:induction false} GatherIsSound(schemas: seq<GeneratedSchema>, k: nat, annotate: Annotate, defs: map<string, Value>)
    requires k <= |schemas| && Admissible(schemas) && Tame(annotate)
    requires Gather(schemas[..k], NamespacedTypes(schemas), annotate) == Ok(defs)
    ensures Placed(defs, schemas, k, annotate) && RefsArePromised(defs, schemas)
  {
    GatherIsPlaced(schemas, k, annotate, defs);
    if k == 0 {
      assert schemas[..k] == [] && defs == map[];
    } else {
      var before := GatherStep(schemas, k - 1, NamespacedTypes(schemas), annotate);
      GatherIsSound(schemas, k - 1, annotate, before);
      if schemas[k - 1].logicalName !in IGNORED {
        AbsorbKeepsPromises(before, schemas, k - 1, annotate);
      }
    }
  }

  lemma DocumentWalk(defs: map<string, Value>, r: string)
    requires DEFS <= r
    ensures Resolve(Document(defs), r) == Walk(Obj(defs), r[|DEFS|..])
  {
    var path := r[|DEFS|..];
    assert r == DEFS + path;
    assert "#/" + "definitions" + "/" + path == r;
    assert r[2..] == "definitions" + "/" + path;
    WalkStep(Document(defs), "definitions", path);
  }

  /** What stands under a name at the root or in a namespace. */
  function At(defs: map<string, Value>, namespace: Option<string>, n: string): Option<Value> {
    match namespace
    case Some(ns) => Field(NamespaceEntry(defs, ns), n)
    case None => Get(defs, n)
  }

  /** What a reference leads to from a value. */
  function Onward(found: Option<Value>, below: Option<string>): Option<Value> {
    if found.Some? && below.Some? then Walk(found.value, below.value) else found
  }

  lemma AddressPath(where: Option<string>, n: string, tail: string)
    ensures DEFS <= Address(where, n) + tail
    ensures (Address(where, n) + tail)[|DEFS|..] == if where.Some? then where.value + "/" + (n + tail) else n + tail
  {
  }

  lemma ReferenceIsPlace(defs: map<string, Value>, where: Option<string>, n: string, below: Option<string>)
    requires '/' !in n && (where.Some? ==> '/' !in where.value && NamespaceEntry(defs, where.value).Obj?)
    ensures Resolve(Document(defs), Address(where, n) + Tail(below)) == Onward(At(defs, where, n), below)
  {
    AddressPath(where, n, Tail(below));
    DocumentWalk(defs, Address(where, n) + Tail(below));
    match where
    case Some(ns) => WalkInNamespace(defs, ns, n, below);
    case None => WalkOn(Obj(defs), n, below);
  }

  lemma WalkInNamespace(defs: map<string, Value>, ns: string, n: string, below: Option<string>)
    requires '/' !in n && '/' !in ns && NamespaceEntry(defs, ns).Obj?
    ensures Walk(Obj(defs), ns + "/" + (n + Tail(below))) == Onward(At(defs, Some(ns), n), below)
  {
    WalkStep(Obj(defs), ns, n + Tail(below));
    if ns in defs {
      WalkOn(defs[ns], n, below);
    }
  }

  lemma WalkOn(v: Value, n: string, below: Option<string>)
    requires '/' !in n
    ensures Walk(v, n + Tail(below)) == Onward(Child(v, n), below)
  {
    match below
    case None =>
      assert n + "" == n;
      WalkLast(v, n);
    case Some(path) =>
      assert n + ("/" + path) == n + "/" + path;
      WalkStep(v, n, path);
  }

  lemma AddressResolves(defs: map<string, Value>, namespace: Option<string>, n: string, v: Value)
    requires Holds(defs, namespace, n, v) && '/' !in n && (namespace.Some? ==> '/' !in namespace.value)
    ensures Resolve(Document(defs), Address(namespace, n)) == Some(if namespace.Some? then v else defs[n])
  {
    assert Address(namespace, n) + "" == Address(namespace, n);
    ReferenceIsPlace(defs, namespace, n, None);
  }

  lemma DocumentRefs(defs: map<string, Value>, r: string)
    requires r in RefsIn(Document(defs))
    ensures r in RefsIn(Obj(defs))
  {
  }

  lemma ProvidedNameIsPlain(s: GeneratedSchema, types: Types, namespaces: set<string>, n: string)
    requires PlaceableOne(s, namespaces) && Provides(s, types, n)
    ensures '/' !in n && n != REF && (s.namespace.Some? ==> '/' !in s.namespace.value)
  {
    assert n in Claims(s);
  }

  /** The value under which a schema provides one of its names. */
  function Provision(s: GeneratedSchema, types: Types, annotate: Annotate, n: string): Value {
    if n != s.logicalName && n in NewDefs(s, types, annotate) then NewDefs(s, types, annotate)[n] else Body(s, types)
  }

  lemma ProvidedNameResolves(defs: map<string, Value>, s: GeneratedSchema, types: Types, namespaces: set<string>,
                             annotate: Annotate, n: string)
    requires PlaceableOne(s, namespaces) && HoldsAllOf(defs, s, types, annotate) && Provides(s, types, n)
    ensures Resolve(Document(defs), Address(s.namespace, n)).Some?
    ensures s.namespace.Some? ==> Resolve(Document(defs), Address(s.namespace, n)) == Some(Provision(s, types, annotate, n))
  {
    ProvidedNameIsPlain(s, types, namespaces, n);
    DefsKeys(s, types);
    AddressResolves(defs, s.namespace, n, Provision(s, types, annotate, n));
  }

  lemma PointedMember(v: Value, ns: string, k: string)
    requires v.Obj? && k in v.fields && k != REF
    ensures RewriteToNamespace(v, ns).fields[k] == RewriteToNamespace(v.fields[k], ns)
  {
  }

  /** A path into a definition of a namespaced schema leads on in the form in which the schema adds it. */
  lemma PathSurvives(s: GeneratedSchema, types: Types, annotate: Annotate, n: string, path: string)
    requires Tame(annotate) && s.namespace.Some? && n in DefNames(s) - SKIPPED && n != REF && LeadsInto(OwnDef(s, n), path)
    ensures n in NewDefs(s, types, annotate) && Walk(NewDefs(s, types, annotate)[n], path).Some?
  {
    DefsKeys(s, types);
    NewDefsRefs(s, types, annotate, n);
    var own, pointed := OwnDef(s, n), Defs(s, types)[n];
    PointedMember(s.value, s.namespace.value, "definitions");
    PointedMember(s.value.fields["definitions"], s.namespace.value, n);
    WalkOfMapped(own, r => ToNamespace(r, s.namespace.value), path);
    TitledWalk(pointed, annotate(pointed, n), path);
  }

  lemma PromisedRefResolves(defs: map<string, Value>, schemas: seq<GeneratedSchema>, annotate: Annotate, r: string)
    requires Admissible(schemas) && Tame(annotate) && Placed(defs, schemas, |schemas|, annotate) && RefsArePromised(defs, schemas)
    requires r in RefsIn(Obj(defs)) && DEFS <= r
    ensures Resolve(Document(defs), r).Some?
  {
    var types, names := NamespacedTypes(schemas), NamespaceNames(schemas);
    assert Promised(schemas, types, r);
    var i, n, below :| 0 <= i < |schemas| && LeadsTo(schemas[i], types, n, below, r);
    LeadsToResolves(defs, schemas[i], types, names, annotate, n, below, r);
  }

  lemma LeadsToResolves(defs: map<string, Value>, s: GeneratedSchema, types: Types, namespaces: set<string>, annotate: Annotate,
                        n: string, below: Option<string>, r: string)
    requires Tame(annotate) && AdmissibleOne(s, types, namespaces) && HoldsAllOf(defs, s, types, annotate)
    requires LeadsTo(s, types, n, below, r)
    ensures Resolve(Document(defs), r).Some?
  {
    var address := Address(s.namespace, n);
    match below
    case None =>
      assert address + "" == address;
      ProvidedNameResolves(defs, s, types, namespaces, annotate, n);
    case Some(path) =>
      ProvidedNameIsPlain(s, types, namespaces, n);
      PathSurvives(s, types, annotate, n, path);
      ReferenceIsPlace(defs, s.namespace, n, below);
  }

  /** Every definition reference of the bundle built from admissible inputs, in any order, denotes a definition. */
  lemma BundleRefsResolve(schemas: seq<GeneratedSchema>, annotate: Annotate, r: string)
    requires Admissible(schemas) && Tame(annotate)
    requires Gather(schemas, NamespacedTypes(schemas), annotate).Ok?
    requires r in RefsIn(Document(Gather(schemas, NamespacedTypes(schemas), annotate).value)) && DEFS <= r
    ensures Resolve(Document(Gather(schemas, NamespacedTypes(schemas), annotate).value), r).Some?
  {
    var defs := Gather(schemas, NamespacedTypes(schemas), annotate).value;
    assert schemas[..|schemas|] == schemas;
    GatherIsSound(schemas, |schemas|, annotate, defs);
    DocumentRefs(defs, r);
    PromisedRefResolves(defs, schemas, annotate, r);
  }

  /** Everything an input provides is in the bundle at its address; in a namespace, with its own value. */
  lemma BundleHoldsEveryInput(schemas: seq<GeneratedSchema>, annotate: Annotate, i: nat, n: string)
    requires Placeable(schemas) && i < |schemas|
    requires Gather(schemas, NamespacedTypes(schemas), annotate).Ok?
    requires Provides(schemas[i], NamespacedTypes(schemas), n)
    ensures var found := Resolve(Document(Gather(schemas, NamespacedTypes(schemas), annotate).value), Address(schemas[i].namespace, n));
            && found.Some?
            && (schemas[i].namespace.Some? ==> found.value == Provision(schemas[i], NamespacedTypes(schemas), annotate, n))
  {
    assert schemas[..|schemas|] == schemas;
    var defs := Gather(schemas, NamespacedTypes(schemas), annotate).value;
    GatherIsPlaced(schemas, |schemas|, annotate, defs);
    ProvidedNameResolves(defs, schemas[i], NamespacedTypes(schemas), NamespaceNames(schemas), annotate, n);
  }
}
