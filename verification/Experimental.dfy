/** Removing what is experimental from a bundle, and what that does to its flat form. */
module Experimental {
  import opened Wrappers
  import opened Text
  import opened Json
  import opened Seqs
  import Prune
  import Flatten

  // ----- the filter

  /** What is registered as experimental: fields of types, methods, and the names of the types that methods use. */
  datatype Registry = Registry(fields: seq<(string, string)>, methods: set<string>, types: set<string>)

  predicate EndsWith(s: string, end: string) {
    |end| <= |s| && s[|s| - |end|..] == end
  }

  /** `definition_matches_type`. */
  predicate MatchesType(name: string, typeName: string) {
    name == typeName || EndsWith(name, "::" + typeName)
  }

  predicate IsListed(name: string, types: set<string>) {
    exists t :: t in types && MatchesType(name, t)
  }

  const SCHEMA_KEYS := {"type", "properties", "anyOf", "oneOf", "allOf"}

  /** `is_namespace_map`. */
  predicate IsNamespaceMap(v: Value) {
    v.Obj? && forall k :: k in v.fields ==> !("$" <= k) && k !in SCHEMA_KEYS && v.fields[k].Obj?
  }

  function WithoutProperty(v: Value, field: string): Value {
    if v.Obj? then Obj(v.fields - {field}) else v
  }

  function WithoutRequired(v: Value, field: string): Value {
    if v.Arr? then Arr(Filter(v.items, (entry: Value) => entry != Str(field))) else v
  }

  /** `remove_property_from_schema`. */
  function RemoveProperty(v: Value, field: string): Value {
    match v
    case Obj(m) =>
      Obj(map k | k in m ::
        if k == "properties" then WithoutProperty(m[k], field)
        else if k == "required" then WithoutRequired(m[k], field)
        else if k == "schema" then RemoveProperty(m[k], field)
        else m[k])
    case _ => v
  }

  /** The registered fields of one type, removed one after the other. */
  function RemoveFields(name: string, v: Value, fields: seq<(string, string)>): Value {
    if fields == [] then v
    else
      var init, last := RemoveFields(name, v, fields[..|fields| - 1]), fields[|fields| - 1];
      if MatchesType(name, last.0) then RemoveProperty(init, last.1) else init
  }

  /** `filter_experimental_fields_in_definitions_map` on one of the definitions. */
  function FilterFields(name: string, v: Value, fields: seq<(string, string)>): Value
    decreases v
  {
    if IsNamespaceMap(v) then Obj(map k | k in v.fields :: FilterFields(k, v.fields[k], fields))
    else RemoveFields(name, v, fields)
  }

  /** `remove_experimental_method_type_definitions_map` on one of the definitions that stay. */
  function RemoveTypes(v: Value, types: set<string>): Value {
    if IsNamespaceMap(v) then Obj(map k | k in v.fields && !IsListed(k, types) :: RemoveTypes(v.fields[k], types)) else v
  }

  predicate HasDefinitions(v: Value) {
    v.Obj? && "definitions" in v.fields && v.fields["definitions"].Obj?
  }

  function Definitions(v: Value): map<string, Value>
    requires HasDefinitions(v)
  {
    v.fields["definitions"].fields
  }

  function WithDefinitions(v: Value, defs: map<string, Value>): Value
    requires v.Obj?
  {
    Obj(v.fields["definitions" := Obj(defs)])
  }

  /** The fields that go if the document itself is a registered type. */
  function FilterRoot(v: Value, title: string, fields: seq<(string, string)>): Value {
    if fields == [] then v
    else
      var init, last := FilterRoot(v, title, fields[..|fields| - 1]), fields[|fields| - 1];
      if title == last.0 then RemoveProperty(init, last.1) else init
  }

  function FilterTitled(v: Value, fields: seq<(string, string)>): Value {
    match Field(v, "title")
    case Some(Str(title)) => FilterRoot(v, title, fields)
    case _ => v
  }

  function FilterDefinitions(v: Value, fields: seq<(string, string)>): Value {
    if HasDefinitions(v) then WithDefinitions(v, map n | n in Definitions(v) :: FilterFields(n, Definitions(v)[n], fields)) else v
  }

  function RemoveDefinitions(v: Value, types: set<string>): Value {
    if HasDefinitions(v)
    then WithDefinitions(v, map n | n in Definitions(v) && !IsListed(n, types) :: RemoveTypes(Definitions(v)[n], types))
    else v
  }

  /** The first three passes: fields of the root, fields of the definitions, variants. */
  function WithoutMembers(v: Value, e: Registry): Value {
    Prune.PruneMethods(FilterDefinitions(FilterTitled(v, e.fields), e.fields), e.methods - {""})
  }

  /** `filter_experimental_schema`. */
  function FilterSchema(v: Value, e: Registry): Value {
    RemoveDefinitions(WithoutMembers(v, e), e.types)
  }

  // ----- which fields go

  /** The definition carries the name of the type, behind a path or not. */
  ghost predicate Names(name: string, typeName: string) {
    name == typeName || exists path :: IsQualified(name, path, typeName)
  }

  predicate IsQualified(name: string, path: string, typeName: string) {
    name == path + "::" + typeName
  }

  lemma QualifiedEndsWith(name: string, path: string, typeName: string)
    requires IsQualified(name, path, typeName)
    ensures EndsWith(name, "::" + typeName)
  {
    assert name == path + ("::" + typeName);
  }

  lemma EndsQualified(name: string, path: string, typeName: string)
    requires EndsWith(name, "::" + typeName) && path == name[..|name| - |"::" + typeName|]
    ensures IsQualified(name, path, typeName)
  {
    assert name == path + ("::" + typeName);
  }

  lemma MatchesTypeIff(name: string, typeName: string)
    ensures MatchesType(name, typeName) <==> Names(name, typeName)
  {
    if EndsWith(name, "::" + typeName) {
      EndsQualified(name, name[..|name| - |"::" + typeName|], typeName);
    }
    if path :| IsQualified(name, path, typeName) {
      QualifiedEndsWith(name, path, typeName);
    }
  }

  /** The registered fields of the type of that name. */
  ghost function Registered(name: string, fields: seq<(string, string)>): set<string> {
    set i | 0 <= i < |fields| && Names(name, fields[i].0) :: fields[i].1
  }

  function OtherThan(gone: set<string>): Value -> bool {
    (entry: Value) => !(entry.Str? && entry.s in gone)
  }

  /** `w` is `v` without these fields among its properties and its required ones, and nothing else is changed. */
  ghost predicate Loses(v: Value, w: Value, gone: set<string>) {
    match v
    case Obj(m) =>
      && w.Obj? && w.fields.Keys == m.Keys
      && forall k :: k in m ==>
           if k == "properties" && m[k].Obj? then w.fields[k] == Obj(m[k].fields - gone)
           else if k == "required" && m[k].Arr? then w.fields[k] == Arr(Filter(m[k].items, OtherThan(gone)))
           else if k == "schema" then Loses(m[k], w.fields[k], gone)
           else w.fields[k] == m[k]
    case _ => w == v
  }

  lemma {:induction false} LosesNothing(v: Value)
    ensures Loses(v, v, {})
  {
    match v
    case Obj(m) =>
      if "schema" in m {
        LosesNothing(m["schema"]);
      }
      if "properties" in m && m["properties"].Obj? {
        assert m["properties"].fields - {} == m["properties"].fields;
      }
      if "required" in m && m["required"].Arr? {
        FilterAll(m["required"].items, OtherThan({}));
      }
    case _ =>
  }

  lemma RequiredLosesOneMore(xs: seq<Value>, field: string, gone: set<string>)
    ensures Filter(Filter(xs, OtherThan(gone)), (entry: Value) => entry != Str(field)) == Filter(xs, OtherThan(gone + {field}))
  {
    FilterThen(xs, OtherThan(gone), (entry: Value) => entry != Str(field), OtherThan(gone + {field}));
  }

  lemma {:induction false} LosesOneMore(v: Value, w: Value, field: string, gone: set<string>)
    requires Loses(v, w, gone)
    ensures Loses(v, RemoveProperty(w, field), gone + {field})
  {
    match v
    case Obj(m) =>
      if "schema" in m {
        LosesOneMore(m["schema"], w.fields["schema"], field, gone);
      }
      if "properties" in m && m["properties"].Obj? {
        var properties := m["properties"].fields;
        assert properties - gone - {field} == properties - (gone + {field});
      }
      if "required" in m && m["required"].Arr? {
        RequiredLosesOneMore(m["required"].items, field, gone);
      }
    case _ =>
  }

  lemma RegisteredSnoc(name: string, fields: seq<(string, string)>)
    requires fields != []
    ensures var init, last := fields[..|fields| - 1], fields[|fields| - 1];
            Registered(name, fields) == Registered(name, init) + if Names(name, last.0) then {last.1} else {}
  {
    var init, last := fields[..|fields| - 1], fields[|fields| - 1];
    forall f | f in Registered(name, init)
      ensures f in Registered(name, fields)
    {
      var i :| 0 <= i < |init| && Names(name, init[i].0) && init[i].1 == f;
      assert fields[i] == init[i];
    }
  }

  /** A definition loses exactly the fields that are registered for its type. */
  lemma {:induction false} RegisteredFieldsGo(name: string, v: Value, fields: seq<(string, string)>)
    ensures Loses(v, RemoveFields(name, v, fields), Registered(name, fields))
  {
    if fields == [] {
      assert Registered(name, fields) == {};
      LosesNothing(v);
    } else {
      var init, last := fields[..|fields| - 1], fields[|fields| - 1];
      RegisteredFieldsGo(name, v, init);
      RegisteredSnoc(name, fields);
      MatchesTypeIff(name, last.0);
      if Names(name, last.0) {
        LosesOneMore(v, RemoveFields(name, v, init), last.1, Registered(name, init));
      } else {
        assert Registered(name, fields) == Registered(name, init);
      }
    }
  }

  /** The field is no property and not required, here and in the schema inside. */
  ghost predicate Lacks(v: Value, field: string) {
    v.Obj? ==>
      && ("properties" in v.fields && v.fields["properties"].Obj? ==> field !in v.fields["properties"].fields)
      && ("required" in v.fields && v.fields["required"].Arr? ==> Str(field) !in v.fields["required"].items)
      && ("schema" in v.fields ==> Lacks(v.fields["schema"], field))
  }

  lemma {:induction false} LostIsLacked(v: Value, w: Value, gone: set<string>, field: string)
    requires Loses(v, w, gone) && field in gone
    ensures Lacks(w, field)
    decreases v
  {
    match v
    case Obj(m) =>
      if "schema" in m {
        LostIsLacked(m["schema"], w.fields["schema"], gone, field);
      }
    case _ =>
  }

  lemma {:induction false} PruneKeepsLack(v: Value, methods: set<string>, field: string)
    requires Lacks(v, field)
    ensures Lacks(Prune.PruneMethods(v, methods), field)
    decreases v
  {
    if v.Obj? {
      if "schema" in v.fields {
        PruneKeepsLack(v.fields["schema"], methods, field);
      }
      if "required" in v.fields && v.fields["required"].Arr? {
        PruneAddsNoString(v.fields["required"].items, methods, field);
      }
    }
  }

  lemma PruneAddsNoString(xs: seq<Value>, methods: set<string>, field: string)
    requires Str(field) !in xs
    ensures Str(field) !in Prune.PruneMethods(Arr(xs), methods).items
  {
    var ys, zs := Prune.Survivors(xs, methods), Prune.PruneMethods(Arr(xs), methods).items;
    forall i | 0 <= i < |zs|
      ensures zs[i] != Str(field)
    {
      assert ys[i] in xs && zs[i] == Prune.PruneMethods(ys[i], methods);
    }
  }

  /** An object with a member that a namespace does not have: a keyword of a schema, or no object. */
  ghost predicate IsSchema(v: Value) {
    v.Obj? && exists k :: k in v.fields && IsSchemaMember(k, v.fields[k])
  }

  predicate IsSchemaMember(k: string, member: Value) {
    "$" <= k || k == "type" || k == "properties" || k == "anyOf" || k == "oneOf" || k == "allOf" || !member.Obj?
  }

  ghost predicate IsNamespace(v: Value) {
    v.Obj? && forall k :: k in v.fields ==> !IsSchemaMember(k, v.fields[k])
  }

  lemma SchemaOrNamespace(v: Value)
    requires v.Obj?
    ensures IsNamespaceMap(v) <==> IsNamespace(v)
    ensures IsNamespaceMap(v) <==> !IsSchema(v)
  {
  }

  /** What the passes make of one definition that is a schema: no namespace is mistaken for one or becomes one. */
  lemma SchemaStays(name: string, v: Value, fields: seq<(string, string)>, methods: set<string>)
    requires !IsNamespaceMap(v)
    ensures FilterFields(name, v, fields) == RemoveFields(name, v, fields)
    ensures !IsNamespaceMap(Prune.PruneMethods(FilterFields(name, v, fields), methods))
  {
    var w := RemoveFields(name, v, fields);
    RegisteredFieldsGo(name, v, fields);
    if v.Obj? {
      var k :| k in v.fields && !(!("$" <= k) && k !in SCHEMA_KEYS && v.fields[k].Obj?);
      KindOfLosing(v, w, Registered(name, fields), k);
      assert k in Prune.PruneMethods(w, methods).fields;
    }
  }

  lemma KindOfLosing(v: Value, w: Value, gone: set<string>, k: string)
    requires Loses(v, w, gone) && v.Obj? && k in v.fields
    ensures w.fields[k].Obj? == v.fields[k].Obj?
  {
  }

  ghost predicate IsRegistered(name: string, field: string, fields: seq<(string, string)>) {
    exists i :: 0 <= i < |fields| && Names(name, fields[i].0) && fields[i].1 == field
  }

  lemma FieldIsGone(name: string, v: Value, fields: seq<(string, string)>, methods: set<string>, types: set<string>, field: string)
    requires !IsNamespaceMap(v) && IsRegistered(name, field, fields)
    ensures Lacks(RemoveTypes(Prune.PruneMethods(FilterFields(name, v, fields), methods), types), field)
  {
    SchemaStays(name, v, fields, methods);
    RegisteredFieldsGo(name, v, fields);
    assert field in Registered(name, fields);
    LostIsLacked(v, RemoveFields(name, v, fields), Registered(name, fields), field);
    PruneKeepsLack(RemoveFields(name, v, fields), methods, field);
  }

  lemma {:induction false} FilterRootKeepsDefinitions(v: Value, title: string, fields: seq<(string, string)>)
    requires HasDefinitions(v)
    ensures HasDefinitions(FilterRoot(v, title, fields)) && Definitions(FilterRoot(v, title, fields)) == Definitions(v)
  {
    if fields != [] {
      FilterRootKeepsDefinitions(v, title, fields[..|fields| - 1]);
    }
  }

  /** What the whole filter makes of one definition. */
  lemma FilteredDefinition(v: Value, e: Registry, n: string)
    requires HasDefinitions(v) && HasDefinitions(FilterSchema(v, e)) && n in Definitions(FilterSchema(v, e))
    ensures n in Definitions(v)
    ensures Definitions(FilterSchema(v, e))[n] ==
            RemoveTypes(Prune.PruneMethods(FilterFields(n, Definitions(v)[n], e.fields), e.methods - {""}), e.types)
  {
    var a := FilterTitled(v, e.fields);
    if Field(v, "title").Some? && Field(v, "title").value.Str? {
      FilterRootKeepsDefinitions(v, Field(v, "title").value.s, e.fields);
    }
    var b := FilterDefinitions(a, e.fields);
    var c := Prune.PruneMethods(b, e.methods - {""});
    assert Definitions(c) == Prune.PruneMethods(Obj(Definitions(b)), e.methods - {""}).fields;
    assert Definitions(c)[n] == Prune.PruneMethods(Definitions(b)[n], e.methods - {""});
  }

  /** After the filter a registered field is no property and not required in any definition of its type. */
  lemma RegisteredFieldIsGone(v: Value, e: Registry, n: string, field: string)
    requires HasDefinitions(v) && HasDefinitions(FilterSchema(v, e)) && n in Definitions(FilterSchema(v, e))
    requires n in Definitions(v) && IsSchema(Definitions(v)[n]) && IsRegistered(n, field, e.fields)
    ensures Lacks(Definitions(FilterSchema(v, e))[n], field)
  {
    SchemaOrNamespace(Definitions(v)[n]);
    FilteredDefinition(v, e, n);
    FieldIsGone(n, Definitions(v)[n], e.fields, e.methods - {""}, e.types, field);
  }

  lemma FilteredMember(ns: Value, fields: seq<(string, string)>, methods: set<string>, types: set<string>, name: string, n: string)
    requires IsNamespaceMap(ns) && n in ns.fields && !IsListed(n, types)
    ensures var w := RemoveTypes(Prune.PruneMethods(FilterFields(name, ns, fields), methods), types);
            && w.Obj? && n in w.fields
            && w.fields[n] == RemoveTypes(Prune.PruneMethods(FilterFields(n, ns.fields[n], fields), methods), types)
  {
    var a := FilterFields(name, ns, fields);
    forall k | k in ns.fields
      ensures a.fields[k].Obj?
    {
      assert a.fields[k] == FilterFields(k, ns.fields[k], fields);
      if !IsNamespaceMap(ns.fields[k]) {
        RegisteredFieldsGo(k, ns.fields[k], fields);
        assert FilterFields(k, ns.fields[k], fields) == RemoveFields(k, ns.fields[k], fields);
      }
    }
    var b := Prune.PruneMethods(a, methods);
    assert IsNamespaceMap(b);
  }

  /** Nor in any definition of its type in a namespace. */
  lemma RegisteredFieldIsGoneInside(v: Value, e: Registry, ns: string, n: string, field: string)
    requires HasDefinitions(v) && HasDefinitions(FilterSchema(v, e)) && ns in Definitions(FilterSchema(v, e))
    requires ns in Definitions(v) && IsNamespace(Definitions(v)[ns]) && n in Definitions(v)[ns].fields && !IsListed(n, e.types)
    requires IsSchema(Definitions(v)[ns].fields[n]) && IsRegistered(n, field, e.fields)
    ensures var left := Definitions(FilterSchema(v, e))[ns]; left.Obj? && n in left.fields && Lacks(left.fields[n], field)
  {
    SchemaOrNamespace(Definitions(v)[ns]);
    SchemaOrNamespace(Definitions(v)[ns].fields[n]);
    FilteredDefinition(v, e, ns);
    FilteredMember(Definitions(v)[ns], e.fields, e.methods - {""}, e.types, ns, n);
    FieldIsGone(n, Definitions(v)[ns].fields[n], e.fields, e.methods - {""}, e.types, field);
  }

  /** The fields registered under exactly this title. */
  function Titled(title: string, fields: seq<(string, string)>): set<string> {
    set i | 0 <= i < |fields| && fields[i].0 == title :: fields[i].1
  }

  lemma TitledSnoc(title: string, fields: seq<(string, string)>)
    requires fields != []
    ensures var init, last := fields[..|fields| - 1], fields[|fields| - 1];
            Titled(title, fields) == Titled(title, init) + if last.0 == title then {last.1} else {}
  {
    var init, last := fields[..|fields| - 1], fields[|fields| - 1];
    forall f | f in Titled(title, init)
      ensures f in Titled(title, fields)
    {
      var i :| 0 <= i < |init| && init[i].0 == title && init[i].1 == f;
      assert fields[i] == init[i];
    }
  }

  /** The document itself loses exactly the fields registered under its title. */
  lemma {:induction false} TitledFieldsGo(v: Value, title: string, fields: seq<(string, string)>)
    ensures Loses(v, FilterRoot(v, title, fields), Titled(title, fields))
  {
    if fields == [] {
      assert Titled(title, fields) == {};
      LosesNothing(v);
    } else {
      var init, last := fields[..|fields| - 1], fields[|fields| - 1];
      TitledFieldsGo(v, title, init);
      TitledSnoc(title, fields);
      if last.0 == title {
        LosesOneMore(v, FilterRoot(v, title, init), last.1, Titled(title, init));
      } else {
        assert Titled(title, fields) == Titled(title, init);
      }
    }
  }

  lemma OtherDefinitionsLack(v: Value, w: Value, field: string)
    requires Lacks(v, field) && v.Obj? && w.Obj? && w.fields - {"definitions"} == v.fields - {"definitions"}
    ensures Lacks(w, field)
  {
    forall k | k in w.fields && k != "definitions"
      ensures k in v.fields && w.fields[k] == v.fields[k]
    {
      assert k in w.fields - {"definitions"};
      assert (w.fields - {"definitions"})[k] == w.fields[k] && (v.fields - {"definitions"})[k] == v.fields[k];
    }
  }

  /** After the filter a field registered under the title of the document is no property of it and not required. */
  lemma TitledFieldIsGone(v: Value, e: Registry, i: nat)
    requires v.Obj? && i < |e.fields| && "title" in v.fields && v.fields["title"] == Str(e.fields[i].0)
    ensures Lacks(FilterSchema(v, e), e.fields[i].1)
  {
    var title, field := e.fields[i].0, e.fields[i].1;
    var a := FilterTitled(v, e.fields);
    TitledFieldsGo(v, title, e.fields);
    assert field in Titled(title, e.fields);
    LostIsLacked(v, a, Titled(title, e.fields), field);
    var b := FilterDefinitions(a, e.fields);
    OtherDefinitionsLack(a, b, field);
    var c := Prune.PruneMethods(b, e.methods - {""});
    PruneKeepsLack(b, e.methods - {""}, field);
    OtherDefinitionsLack(c, RemoveDefinitions(c, e.types), field);
  }

  /** An empty name among the methods means nothing. */
  lemma EmptyMethodIsNone(v: Value, e: Registry)
    ensures FilterSchema(v, e.(methods := e.methods + {""})) == FilterSchema(v, e.(methods := e.methods - {""}))
  {
    assert e.methods + {""} - {""} == e.methods - {""} - {""};
  }

  // ----- no pass brings in a reference

  lemma RefOfElement(xs: seq<Value>, ys: seq<Value>, r: string)
    requires (forall y :: y in ys ==> y in xs) && r in RefsIn(Arr(ys))
    ensures r in RefsIn(Arr(xs))
  {
    var i :| 0 <= i < |ys| && r in RefsIn(ys[i]);
    assert ys[i] in ys && ys[i] in xs;
    var j :| 0 <= j < |xs| && xs[j] == ys[i];
  }

  lemma {:induction false} RemovePropertyMember(m: map<string, Value>, field: string, k: string, r: string)
    requires k in m && r in RefsIn(RemoveProperty(Obj(m), field).fields[k])
    ensures r in RefsIn(m[k])
    decreases Obj(m)
  {
    if k == "required" && m[k].Arr? {
      RequiredRefs(m[k].items, field, r);
    } else if k == "schema" && m[k].Obj? {
      var w := RemoveProperty(m[k], field).fields;
      if r !in RefHere(w) {
        var j :| j in w && r in RefsIn(w[j]);
        RemovePropertyMember(m[k].fields, field, j, r);
      }
    }
  }

  lemma RequiredRefs(xs: seq<Value>, field: string, r: string)
    requires r in RefsIn(WithoutRequired(Arr(xs), field))
    ensures r in RefsIn(Arr(xs))
  {
    RefOfElement(xs, Filter(xs, (entry: Value) => entry != Str(field)), r);
  }

  /** An object whose members are some of another's and refer to no more than these. */
  ghost predicate Within(w: Value, v: Value) {
    && v.Obj? && w.Obj? && w.fields.Keys <= v.fields.Keys
    && (forall k :: k in w.fields ==> RefsIn(w.fields[k]) <= RefsIn(v.fields[k]))
    && RefHere(w.fields) <= RefHere(v.fields)
  }

  lemma WithinRefs(w: Value, v: Value)
    requires Within(w, v)
    ensures RefsIn(w) <= RefsIn(v)
  {
    forall r | r in RefsIn(w)
      ensures r in RefsIn(v)
    {
      if r !in RefHere(w.fields) {
        var k :| k in w.fields && r in RefsIn(w.fields[k]);
        assert r in RefsIn(v.fields[k]);
      }
    }
  }

  lemma RemovePropertyWithin(v: Value, field: string)
    requires v.Obj?
    ensures Within(RemoveProperty(v, field), v) && RemoveProperty(v, field).fields.Keys == v.fields.Keys
    ensures "definitions" in v.fields ==> RemoveProperty(v, field).fields["definitions"] == v.fields["definitions"]
  {
    var w := RemoveProperty(v, field).fields;
    forall k, r | k in w && r in RefsIn(w[k])
      ensures r in RefsIn(v.fields[k])
    {
      RemovePropertyMember(v.fields, field, k, r);
    }
  }

  lemma {:induction false} RemoveFieldsWithin(name: string, v: Value, fields: seq<(string, string)>)
    requires v.Obj?
    ensures Within(RemoveFields(name, v, fields), v) && RemoveFields(name, v, fields).fields.Keys == v.fields.Keys
  {
    if fields != [] {
      var init, last := fields[..|fields| - 1], fields[|fields| - 1];
      RemoveFieldsWithin(name, v, init);
      RemovePropertyWithin(RemoveFields(name, v, init), last.1);
    }
  }

  lemma {:induction false} RemoveFieldsElsewhere(name: string, v: Value, fields: seq<(string, string)>)
    requires !v.Obj?
    ensures RemoveFields(name, v, fields) == v
  {
    if fields != [] {
      RemoveFieldsElsewhere(name, v, fields[..|fields| - 1]);
    }
  }

  lemma NoRefInNamespace(v: Value)
    requires IsNamespaceMap(v)
    ensures REF !in v.fields
  {
    assert "$" <= REF;
  }

  lemma {:induction false} FilterFieldsRefs(name: string, v: Value, fields: seq<(string, string)>)
    ensures RefsIn(FilterFields(name, v, fields)) <= RefsIn(v)
    ensures v.Obj? ==> Within(FilterFields(name, v, fields), v) && FilterFields(name, v, fields).fields.Keys == v.fields.Keys
    decreases v
  {
    var w := FilterFields(name, v, fields);
    if IsNamespaceMap(v) {
      NoRefInNamespace(v);
      forall k | k in v.fields
        ensures RefsIn(w.fields[k]) <= RefsIn(v.fields[k])
      {
        FilterFieldsRefs(k, v.fields[k], fields);
      }
      WithinRefs(w, v);
    } else if v.Obj? {
      RemoveFieldsWithin(name, v, fields);
      WithinRefs(w, v);
    } else {
      RemoveFieldsElsewhere(name, v, fields);
    }
  }

  lemma {:induction false} RemoveTypesRefs(v: Value, types: set<string>)
    ensures RefsIn(RemoveTypes(v, types)) <= RefsIn(v)
    ensures v.Obj? ==> Within(RemoveTypes(v, types), v)
    decreases v
  {
    if IsNamespaceMap(v) {
      NoRefInNamespace(v);
      var w := RemoveTypes(v, types);
      forall k | k in w.fields
        ensures RefsIn(w.fields[k]) <= RefsIn(v.fields[k])
      {
        RemoveTypesRefs(v.fields[k], types);
      }
      WithinRefs(w, v);
    }
  }

  lemma {:induction false} PruneRefs(v: Value, methods: set<string>)
    ensures RefsIn(Prune.PruneMethods(v, methods)) <= RefsIn(v)
    ensures v.Obj? ==> Within(Prune.PruneMethods(v, methods), v)
  {
    match v
    case Obj(m) =>
      var w := Prune.PruneMethods(v, methods);
      forall k | k in m
        ensures RefsIn(w.fields[k]) <= RefsIn(m[k])
      {
        PruneRefs(m[k], methods);
      }
      WithinRefs(w, v);
    case Arr(xs) =>
      var ys := Prune.Survivors(xs, methods);
      forall r | r in RefsIn(Prune.PruneMethods(v, methods))
        ensures r in RefsIn(v)
      {
        var i :| 0 <= i < |ys| && r in RefsIn(Prune.PruneMethods(ys[i], methods));
        assert ys[i] in xs;
        PruneRefs(ys[i], methods);
        var j :| 0 <= j < |xs| && xs[j] == ys[i];
        assert r in RefsIn(xs[j]);
      }
    case _ =>
  }

  // ----- what is left of a bundle

  function Around(v: Value): Value
    requires v.Obj?
  {
    Obj(v.fields - {"definitions"})
  }

  /** `w` is `v` with fewer definitions, fewer v2 definitions, and no reference anywhere that was not there. */
  ghost predicate Thins(w: Value, v: Value) {
    && HasDefinitions(v) && HasDefinitions(w)
    && Within(Obj(Definitions(w)), Obj(Definitions(v)))
    && ("v2" in Definitions(w) && Definitions(v)["v2"].Obj? ==> Within(Definitions(w)["v2"], Definitions(v)["v2"]))
    && RefsIn(Around(w)) <= RefsIn(Around(v))
  }

  lemma ThinsTwice(u: Value, w: Value, v: Value)
    requires Thins(u, w) && Thins(w, v)
    ensures Thins(u, v)
  {
  }

  lemma {:induction false} FilterRootThins(v: Value, title: string, fields: seq<(string, string)>)
    requires HasDefinitions(v)
    ensures var w := FilterRoot(v, title, fields);
            w.Obj? && Within(w, v) && w.fields.Keys == v.fields.Keys && w.fields["definitions"] == v.fields["definitions"]
  {
    if fields != [] {
      var init, last := fields[..|fields| - 1], fields[|fields| - 1];
      FilterRootThins(v, title, init);
      RemovePropertyWithin(FilterRoot(v, title, init), last.1);
    }
  }

  lemma AroundWithin(w: Value, v: Value)
    requires Within(w, v)
    ensures RefsIn(Around(w)) <= RefsIn(Around(v))
  {
    WithinRefs(Around(w), Around(v));
  }

  lemma SameDefinitionsThin(w: Value, v: Value)
    requires HasDefinitions(v) && Within(w, v) && "definitions" in w.fields && w.fields["definitions"] == v.fields["definitions"]
    ensures Thins(w, v)
  {
    AroundWithin(w, v);
  }

  lemma FilterTitledThins(v: Value, fields: seq<(string, string)>)
    requires HasDefinitions(v)
    ensures Thins(FilterTitled(v, fields), v) && Definitions(FilterTitled(v, fields)) == Definitions(v)
  {
    var w := FilterTitled(v, fields);
    if Field(v, "title").Some? && Field(v, "title").value.Str? {
      FilterRootThins(v, Field(v, "title").value.s, fields);
    }
    SameDefinitionsThin(w, v);
  }

  lemma FilterDefinitionsThins(v: Value, fields: seq<(string, string)>)
    requires HasDefinitions(v) && REF !in Definitions(v)
    ensures var w := FilterDefinitions(v, fields);
            && Thins(w, v) && Definitions(w).Keys == Definitions(v).Keys
            && ("v2" in Definitions(v) && Definitions(v)["v2"].Obj? ==>
                  Definitions(w)["v2"].fields.Keys == Definitions(v)["v2"].fields.Keys)
  {
    var w, defs := FilterDefinitions(v, fields), Definitions(v);
    forall n | n in defs
      ensures RefsIn(Definitions(w)[n]) <= RefsIn(defs[n])
      ensures defs[n].Obj? ==> Within(Definitions(w)[n], defs[n]) && Definitions(w)[n].fields.Keys == defs[n].fields.Keys
    {
      FilterFieldsRefs(n, defs[n], fields);
    }
    assert Around(w) == Around(v);
  }

  lemma PruneThins(v: Value, methods: set<string>)
    requires HasDefinitions(v) && REF !in Definitions(v)
    ensures var w := Prune.PruneMethods(v, methods);
            && Thins(w, v) && Definitions(w).Keys == Definitions(v).Keys
            && ("v2" in Definitions(v) && Definitions(v)["v2"].Obj? ==>
                  Definitions(w)["v2"].fields.Keys == Definitions(v)["v2"].fields.Keys)
  {
    var w, defs := Prune.PruneMethods(v, methods), Definitions(v);
    assert Definitions(w) == Prune.PruneMethods(Obj(defs), methods).fields;
    PruneRefs(v, methods);
    PruneRefs(Obj(defs), methods);
    AroundWithin(w, v);
    if "v2" in defs && defs["v2"].Obj? {
      PruneRefs(defs["v2"], methods);
      assert Definitions(w)["v2"] == Prune.PruneMethods(defs["v2"], methods);
    }
  }

  lemma RemoveDefinitionsThins(v: Value, types: set<string>)
    requires HasDefinitions(v) && REF !in Definitions(v)
    ensures Thins(RemoveDefinitions(v, types), v)
  {
    var w, defs := RemoveDefinitions(v, types), Definitions(v);
    forall n | n in Definitions(w)
      ensures RefsIn(Definitions(w)[n]) <= RefsIn(defs[n]) && (defs[n].Obj? ==> Within(Definitions(w)[n], defs[n]))
    {
      RemoveTypesRefs(defs[n], types);
    }
    assert Around(w) == Around(v);
  }

  /** The first three passes thin a bundle and keep the names of all its definitions. */
  lemma WithoutMembersThins(v: Value, e: Registry)
    requires HasDefinitions(v) && REF !in Definitions(v)
    ensures var w := WithoutMembers(v, e);
            && Thins(w, v) && Definitions(w).Keys == Definitions(v).Keys
            && ("v2" in Definitions(v) && Definitions(v)["v2"].Obj? ==>
                  Definitions(w)["v2"].fields.Keys == Definitions(v)["v2"].fields.Keys)
  {
    var a := FilterTitled(v, e.fields);
    var b := FilterDefinitions(a, e.fields);
    FilterTitledThins(v, e.fields);
    FilterDefinitionsThins(a, e.fields);
    PruneThins(b, e.methods - {""});
    ThinsTwice(b, a, v);
    ThinsTwice(WithoutMembers(v, e), b, v);
  }

  /** So does the whole filter, but for the definitions of listed types. */
  lemma FilterThins(v: Value, e: Registry)
    requires HasDefinitions(v) && REF !in Definitions(v)
    ensures Thins(FilterSchema(v, e), v)
  {
    WithoutMembersThins(v, e);
    RemoveDefinitionsThins(WithoutMembers(v, e), e.types);
    ThinsTwice(FilterSchema(v, e), WithoutMembers(v, e), v);
  }

  // ----- whether what is left can be flattened

  /** The name that a reference of a closed bundle leads to is still defined where it leads. */
  ghost predicate KeepsTarget(w: Value, r: string)
    requires Flatten.HasV2Namespace(w)
  {
    && (Flatten.IsV2Ref(r) ==> r[|Flatten.V2|..] in Flatten.V2Defs(w))
    && (Flatten.IsRootRef(r) ==> r[|DEFS|..] in Flatten.Defs(w))
  }

  ghost predicate KeepsTargets(w: Value, v: Value)
    requires Flatten.HasV2Namespace(w)
  {
    forall r :: r in RefsIn(v) && '#' in r ==> KeepsTarget(w, r)
  }

  /** Nothing that the flat bundle of `w` takes over refers to a definition that `w` lacks. */
  ghost predicate Whole(w: Value)
    requires Flatten.HasV2Namespace(w)
  {
    && (forall n :: n in Flatten.V2Defs(w) ==> KeepsTargets(w, Flatten.V2Defs(w)[n]))
    && (forall n :: n in Flatten.Kept(w) ==> KeepsTargets(w, Flatten.Defs(w)[n]))
  }

  lemma NotBoth(r: string)
    requires Flatten.IsV2Ref(r)
    ensures !Flatten.IsRootRef(r)
  {
    if Flatten.IsRootRef(r) {
      Flatten.RootRefIsNotV2(r);
      assert false;
    }
  }

  /** What is known of a thinner form of a closed bundle. */
  ghost predicate IsThinned(w: Value, b: Value) {
    Flatten.ClosedBundle(b) && Thins(w, b) && Flatten.HasV2Namespace(w)
  }

  lemma ThinnedNames(w: Value, b: Value)
    requires IsThinned(w, b)
    ensures Flatten.V2Defs(w).Keys <= Flatten.V2Defs(b).Keys && Flatten.Defs(w).Keys <= Flatten.Defs(b).Keys
    ensures Flatten.V2Defs(w).Keys !! Flatten.Kept(w) && REF !in Flatten.V2Defs(w) && REF !in Flatten.Kept(w)
  {
    assert Flatten.Kept(w) <= Flatten.Defs(w).Keys;
  }

  lemma ClosedV2Ref(b: Value, n: string, r: string)
    requires Flatten.ClosedBundle(b) && n in Flatten.V2Defs(b) && r in RefsIn(Flatten.V2Defs(b)[n]) && '#' in r
    ensures Flatten.IsV2Ref(r) && r[|Flatten.V2|..] in Flatten.V2Defs(b)
  {
    ResolvedV2Ref(b, r);
  }

  lemma ResolvedV2Ref(b: Value, r: string)
    requires Flatten.HasV2Namespace(b) && Flatten.IsV2Ref(r) && Resolve(b, r).Some?
    ensures r[|Flatten.V2|..] in Flatten.V2Defs(b)
  {
    assert r == Flatten.V2 + r[|Flatten.V2|..];
    Flatten.ResolveV2(b, r[|Flatten.V2|..]);
  }

  lemma ResolvedRootRef(b: Value, r: string)
    requires Flatten.HasV2Namespace(b) && Flatten.IsRootRef(r) && Resolve(b, r).Some?
    ensures r[|DEFS|..] in Flatten.Defs(b)
  {
    assert r == DEFS + r[|DEFS|..];
    Flatten.ResolveRoot(b, r[|DEFS|..]);
  }

  /** A reference to one of the definitions of a bundle, from the root or from v2. */
  ghost predicate LeadsToRoot(b: Value, r: string)
    requires Flatten.HasV2Namespace(b)
  {
    Flatten.IsRootRef(r) && r != DEFS + "v2" && r[|DEFS|..] in Flatten.Defs(b)
  }

  ghost predicate LeadsToV2(b: Value, r: string)
    requires Flatten.HasV2Namespace(b)
  {
    Flatten.IsV2Ref(r) && r[|Flatten.V2|..] in Flatten.V2Defs(b)
  }

  lemma ClosedRootRef(b: Value, n: string, r: string)
    requires Flatten.ClosedBundle(b) && n in Flatten.Defs(b) && n != "v2" && r in RefsIn(Flatten.Defs(b)[n]) && '#' in r
    ensures LeadsToV2(b, r) || LeadsToRoot(b, r)
  {
    if Flatten.IsV2Ref(r) {
      ResolvedV2Ref(b, r);
    } else {
      ResolvedRootRef(b, r);
    }
  }

  /** The references of what is left have the forms of those of a closed bundle. */
  lemma ThinnedV2Ref(w: Value, b: Value, n: string, r: string)
    requires IsThinned(w, b) && n in Flatten.V2Defs(w) && r in RefsIn(Flatten.V2Defs(w)[n]) && '#' in r
    ensures LeadsToV2(b, r)
  {
    ThinnedNames(w, b);
    assert Within(Definitions(w)["v2"], Definitions(b)["v2"]);
    ClosedV2Ref(b, n, r);
  }

  lemma ThinnedRootRef(w: Value, b: Value, n: string, r: string)
    requires IsThinned(w, b) && n in Flatten.Defs(w) && n != "v2" && r in RefsIn(Flatten.Defs(w)[n]) && '#' in r
    ensures LeadsToV2(b, r) || LeadsToRoot(b, r)
  {
    ThinnedNames(w, b);
    assert Within(Obj(Definitions(w)), Obj(Definitions(b)));
    ClosedRootRef(b, n, r);
  }

  lemma WholeV2IsSafe(w: Value, b: Value, n: string, r: string)
    requires IsThinned(w, b) && Whole(w) && n in Flatten.V2Defs(w) && r in RefsIn(Flatten.V2Defs(w)[n])
    ensures Flatten.SafeRef(w, r)
  {
    if '#' in r {
      ThinnedV2Ref(w, b, n, r);
      assert KeepsTarget(w, r);
    }
  }

  lemma WholeRootIsSafe(w: Value, b: Value, n: string, r: string)
    requires IsThinned(w, b) && Whole(w) && n in Flatten.Kept(w) && r in RefsIn(Flatten.Defs(w)[n])
    ensures Flatten.SafeRef(w, r)
  {
    if '#' in r {
      ThinnedRootRef(w, b, n, r);
      assert KeepsTarget(w, r);
      if !Flatten.IsV2Ref(r) {
        assert r == DEFS + r[|DEFS|..];
        Flatten.ResolveRoot(w, r[|DEFS|..]);
        Flatten.KeptRefIsKept(w, n, r);
      }
    }
  }

  lemma WholeFlattens(w: Value, b: Value)
    requires IsThinned(w, b) && Whole(w)
    ensures Flatten.Flattenable(w)
  {
    ThinnedNames(w, b);
    forall n, r | n in Flatten.V2Defs(w) && r in RefsIn(Flatten.V2Defs(w)[n])
      ensures Flatten.SafeRef(w, r)
    {
      WholeV2IsSafe(w, b, n, r);
    }
    forall n, r | n in Flatten.Kept(w) && r in RefsIn(Flatten.Defs(w)[n])
      ensures Flatten.SafeRef(w, r)
    {
      WholeRootIsSafe(w, b, n, r);
    }
    assert Flatten.SafeRefs(w, Obj(w.fields - {"definitions"})) by {
      assert Around(w) == Obj(w.fields - {"definitions"}) && Around(b) == Obj(b.fields - {"definitions"});
    }
  }

  /** A reference of what the flat bundle takes over stands, rewritten, in the flat bundle. */
  lemma RefOfFlat(w: Value, b: Value, n: string, r: string)
    requires IsThinned(w, b) && n in Flatten.V2Defs(w).Keys + Flatten.Kept(w)
    requires r in RefsIn(if n in Flatten.V2Defs(w) then Flatten.V2Defs(w)[n] else Flatten.Defs(w)[n])
    ensures Flatten.FlatForm(w, Flatten.FlatOf(w)) && Flatten.FlatRef(r) in RefsIn(Flatten.FlatOf(w))
  {
    ThinnedNames(w, b);
    Flatten.FlatOfForm(w);
    RefOfForm(w, Flatten.FlatOf(w), n, r);
  }

  lemma RefOfForm(w: Value, flat: Value, n: string, r: string)
    requires Flatten.HasV2Namespace(w) && Flatten.FlatForm(w, flat) && n in Flatten.V2Defs(w).Keys + Flatten.Kept(w)
    requires r in RefsIn(if n in Flatten.V2Defs(w) then Flatten.V2Defs(w)[n] else Flatten.Defs(w)[n])
    ensures Flatten.FlatRef(r) in RefsIn(flat)
  {
    var def := if n in Flatten.V2Defs(w) then Flatten.V2Defs(w)[n] else Flatten.Defs(w)[n];
    MappedTo(def, Flatten.FlatRef, r);
    var defs := flat.fields["definitions"].fields;
    assert n in defs && defs[n] == MapRefs(def, Flatten.FlatRef);
    assert Flatten.FlatRef(r) in RefsIn(flat.fields["definitions"]);
  }

  lemma MissingFails(flat: Value, name: string)
    requires flat.Obj? && "definitions" in flat.fields && flat.fields["definitions"].Obj?
    requires Flatten.Name(name) && DEFS + name in RefsIn(flat) && name !in flat.fields["definitions"].fields
    ensures Flatten.CheckFlat(flat).Err?
  {
    assert (DEFS + name)[|DEFS|..] == name;
    BeforeAbsent(name, '/');
    assert name in Flatten.MissingDefinitions(flat, flat.fields["definitions"].fields);
  }

  /** A reference to what is missing makes the closing checks fail. */
  lemma LostV2Fails(w: Value, b: Value, flat: Value, r: string)
    requires IsThinned(w, b) && Flatten.FlatForm(w, flat) && LeadsToV2(b, r) && !KeepsTarget(w, r)
    requires Flatten.FlatRef(r) in RefsIn(flat)
    ensures Flatten.CheckFlat(flat).Err?
  {
    ThinnedNames(w, b);
    NotBoth(r);
    Flatten.FlatRefCases(r);
    assert Flatten.V2Defs(b).Keys !! Flatten.Defs(b).Keys;
    MissingFails(flat, r[|Flatten.V2|..]);
  }

  lemma LostRootFails(w: Value, b: Value, flat: Value, r: string)
    requires IsThinned(w, b) && Flatten.FlatForm(w, flat) && LeadsToRoot(b, r) && !KeepsTarget(w, r)
    requires Flatten.FlatRef(r) in RefsIn(flat)
    ensures Flatten.CheckFlat(flat).Err?
  {
    ThinnedNames(w, b);
    if Flatten.IsV2Ref(r) {
      NotBoth(r);
      assert false;
    }
    Flatten.FlatRefCases(r);
    assert r == DEFS + r[|DEFS|..];
    assert Flatten.V2Defs(b).Keys !! Flatten.Defs(b).Keys;
    MissingFails(flat, r[|DEFS|..]);
  }

  lemma LostTargetFails(w: Value, b: Value, n: string, r: string)
    requires IsThinned(w, b) && n in Flatten.V2Defs(w).Keys + Flatten.Kept(w) && '#' in r && !KeepsTarget(w, r)
    requires r in RefsIn(if n in Flatten.V2Defs(w) then Flatten.V2Defs(w)[n] else Flatten.Defs(w)[n])
    ensures Flatten.CheckFlat(Flatten.FlatOf(w)).Err?
  {
    RefOfFlat(w, b, n, r);
    if n in Flatten.V2Defs(w) {
      ThinnedV2Ref(w, b, n, r);
    } else {
      ThinnedRootRef(w, b, n, r);
    }
    if LeadsToV2(b, r) {
      LostV2Fails(w, b, Flatten.FlatOf(w), r);
    } else {
      LostRootFails(w, b, Flatten.FlatOf(w), r);
    }
  }

  /**
   * A thinner form of a closed bundle flattens exactly when nothing that the flat bundle takes over refers to a
   * definition that is gone; and then every reference of the result resolves.
   */
  lemma ThinnedFlattensIff(w: Value, b: Value)
    requires IsThinned(w, b)
    ensures Flatten.CheckFlat(Flatten.FlatOf(w)).Ok? <==> Whole(w)
    ensures Whole(w) ==> Flatten.CheckFlat(Flatten.FlatOf(w)) == Ok(Flatten.FlatOf(w)) && Flatten.RefsResolve(Flatten.FlatOf(w))
  {
    if Whole(w) {
      WholeFlattens(w, b);
      Flatten.FlattenSucceeds(w);
    } else if exists n :: n in Flatten.V2Defs(w) && !KeepsTargets(w, Flatten.V2Defs(w)[n]) {
      var n :| n in Flatten.V2Defs(w) && !KeepsTargets(w, Flatten.V2Defs(w)[n]);
      var r :| r in RefsIn(Flatten.V2Defs(w)[n]) && '#' in r && !KeepsTarget(w, r);
      LostTargetFails(w, b, n, r);
    } else {
      var n :| n in Flatten.Kept(w) && !KeepsTargets(w, Flatten.Defs(w)[n]);
      var r :| r in RefsIn(Flatten.Defs(w)[n]) && '#' in r && !KeepsTarget(w, r);
      ThinnedNames(w, b);
      LostTargetFails(w, b, n, r);
    }
  }

  // ----- after the filter

  /** The definitions of v2 are looked through for listed types. */
  predicate LooksIntoV2(b: Value, e: Registry)
    requires Flatten.HasV2Namespace(b)
  {
    var c := WithoutMembers(b, e);
    HasDefinitions(c) && "v2" in Definitions(c) && IsNamespaceMap(Definitions(c)["v2"])
  }

  lemma FilteredNames(b: Value, e: Registry)
    requires Flatten.ClosedBundle(b)
    ensures var w := FilterSchema(b, e);
            && Thins(w, b) && (Flatten.HasV2Namespace(w) <==> !IsListed("v2", e.types))
            && (forall n :: n in Definitions(w) <==> n in Flatten.Defs(b) && !IsListed(n, e.types))
            && (Flatten.HasV2Namespace(w) ==> forall n :: n in Flatten.V2Defs(w) <==>
                  n in Flatten.V2Defs(b) && !(LooksIntoV2(b, e) && IsListed(n, e.types)))
  {
    WithoutMembersThins(b, e);
    FilterThins(b, e);
  }

  /** A reference to a definition that the filter removes. */
  predicate LeadsToListed(b: Value, e: Registry, r: string)
    requires Flatten.HasV2Namespace(b)
  {
    || (Flatten.IsV2Ref(r) && LooksIntoV2(b, e) && IsListed(r[|Flatten.V2|..], e.types))
    || (Flatten.IsRootRef(r) && IsListed(r[|DEFS|..], e.types))
  }

  ghost predicate NamesNoneListed(b: Value, e: Registry, v: Value)
    requires Flatten.HasV2Namespace(b)
  {
    forall r :: r in RefsIn(v) && '#' in r ==> !LeadsToListed(b, e, r)
  }

  /** Of what the flat bundle takes over after the filter, nothing refers to a definition that the filter removes. */
  ghost predicate RefersToNoneListed(b: Value, w: Value, e: Registry)
    requires Flatten.HasV2Namespace(b) && Flatten.HasV2Namespace(w)
  {
    && (forall n :: n in Flatten.V2Defs(w) ==> NamesNoneListed(b, e, Flatten.V2Defs(w)[n]))
    && (forall n :: n in Flatten.Kept(w) ==> NamesNoneListed(b, e, Flatten.Defs(w)[n]))
  }

  lemma TargetIsListedIff(b: Value, w: Value, e: Registry, r: string)
    requires Flatten.ClosedBundle(b) && w == FilterSchema(b, e) && Flatten.HasV2Namespace(w)
    requires LeadsToV2(b, r) || LeadsToRoot(b, r)
    ensures KeepsTarget(w, r) <==> !LeadsToListed(b, e, r)
  {
    FilteredNames(b, e);
    if Flatten.IsV2Ref(r) {
      NotBoth(r);
    }
  }

  lemma V2TargetsIff(b: Value, w: Value, e: Registry, n: string)
    requires w == FilterSchema(b, e) && IsThinned(w, b) && n in Flatten.V2Defs(w)
    ensures KeepsTargets(w, Flatten.V2Defs(w)[n]) <==> NamesNoneListed(b, e, Flatten.V2Defs(w)[n])
  {
    forall r | r in RefsIn(Flatten.V2Defs(w)[n]) && '#' in r
      ensures KeepsTarget(w, r) <==> !LeadsToListed(b, e, r)
    {
      ThinnedV2Ref(w, b, n, r);
      TargetIsListedIff(b, w, e, r);
    }
  }

  lemma RootTargetsIff(b: Value, w: Value, e: Registry, n: string)
    requires w == FilterSchema(b, e) && IsThinned(w, b) && n in Flatten.Kept(w)
    ensures KeepsTargets(w, Flatten.Defs(w)[n]) <==> NamesNoneListed(b, e, Flatten.Defs(w)[n])
  {
    forall r | r in RefsIn(Flatten.Defs(w)[n]) && '#' in r
      ensures KeepsTarget(w, r) <==> !LeadsToListed(b, e, r)
    {
      ThinnedRootRef(w, b, n, r);
      TargetIsListedIff(b, w, e, r);
    }
  }

  lemma WholeIff(b: Value, w: Value, e: Registry)
    requires w == FilterSchema(b, e) && IsThinned(w, b)
    ensures Whole(w) <==> RefersToNoneListed(b, w, e)
  {
    forall n | n in Flatten.V2Defs(w)
      ensures KeepsTargets(w, Flatten.V2Defs(w)[n]) <==> NamesNoneListed(b, e, Flatten.V2Defs(w)[n])
    {
      V2TargetsIff(b, w, e, n);
    }
    forall n | n in Flatten.Kept(w)
      ensures KeepsTargets(w, Flatten.Defs(w)[n]) <==> NamesNoneListed(b, e, Flatten.Defs(w)[n])
    {
      RootTargetsIff(b, w, e, n);
    }
  }

  /**
   * After the filter a closed bundle still flattens exactly when v2 itself is not listed as a type and nothing that
   * the flat bundle takes over refers to a definition that the filter removes.
   */
  lemma FilteredFlattensIff(b: Value, e: Registry)
    requires Flatten.ClosedBundle(b)
    ensures var w := FilterSchema(b, e);
            && (Flatten.HasV2Namespace(w) <==> !IsListed("v2", e.types))
            && (Flatten.HasV2Namespace(w) ==>
                  && (Flatten.CheckFlat(Flatten.FlatOf(w)).Ok? <==> RefersToNoneListed(b, w, e))
                  && (RefersToNoneListed(b, w, e) ==>
                        Flatten.CheckFlat(Flatten.FlatOf(w)) == Ok(Flatten.FlatOf(w)) && Flatten.RefsResolve(Flatten.FlatOf(w))))
  {
    var w := FilterSchema(b, e);
    FilteredNames(b, e);
    if Flatten.HasV2Namespace(w) {
      WholeIff(b, w, e);
      ThinnedFlattensIff(w, b);
    }
  }

  // ----- a listed type that is still referred to

  /** A shared union that refers to the v2 definition `n`. */
  function Referring(n: string): map<string, Value> {
    map["ClientRequest" := Obj(map[REF := Str(Flatten.V2 + n)]), "v2" := Obj(map[n := Obj(map[])])]
  }

  /** A name that is listed alone, for a definition of v2. */
  predicate ListedAlone(n: string) {
    && Flatten.Name(n) && !("$" <= n) && n !in SCHEMA_KEYS && n != "ClientRequest" && n != "v2"
    && !MatchesType("ClientRequest", n) && !MatchesType("v2", n)
  }

  lemma RefsOfReference(r: string)
    ensures RefsIn(Obj(map[REF := Str(r)])) == {r} && RefsIn(Obj(map[])) == {}
  {
    assert RefHere(map[REF := Str(r)]) == {r};
  }

  lemma ReferringDefs(n: string, b: Value)
    requires ListedAlone(n) && b == Flatten.BundleOf(Referring(n))
    ensures Flatten.HasV2Namespace(b) && Flatten.Defs(b) == Referring(n) && Flatten.V2Defs(b) == map[n := Obj(map[])]
    ensures REF !in Flatten.V2Defs(b) && REF !in Flatten.Defs(b) && Flatten.V2Defs(b).Keys !! Flatten.Defs(b).Keys
    ensures RefsIn(Obj(b.fields - {"definitions"})) == {}
  {
    assert "$" <= REF;
    assert b.fields - {"definitions"} == map[];
    RefsOfReference("");
  }

  lemma ReferringResolves(n: string, b: Value, r: string)
    requires ListedAlone(n) && b == Flatten.BundleOf(Referring(n)) && r == Flatten.V2 + n
    ensures Flatten.IsV2Ref(r) && Resolve(b, r).Some?
  {
    ReferringDefs(n, b);
    assert r[|Flatten.V2|..] == n;
    Flatten.ResolveV2(b, n);
  }

  lemma ReferringIsClosed(n: string)
    requires ListedAlone(n)
    ensures Flatten.ClosedBundle(Flatten.BundleOf(Referring(n)))
  {
    var b, r := Flatten.BundleOf(Referring(n)), Flatten.V2 + n;
    ReferringDefs(n, b);
    RefsOfReference(r);
    ReferringResolves(n, b, r);
    assert forall k :: k in Flatten.Defs(b) && k != "v2" ==> RefsIn(Flatten.Defs(b)[k]) == {r};
  }

  lemma ReferenceIsNoNamespace(r: string)
    ensures !IsNamespaceMap(Obj(map[REF := Str(r)]))
  {
    assert REF in map[REF := Str(r)] && "$" <= REF;
  }

  lemma PrunedDefinition(v: Value, methods: set<string>, n: string)
    requires HasDefinitions(v) && n in Definitions(v)
    ensures var w := Prune.PruneMethods(v, methods);
            HasDefinitions(w) && n in Definitions(w) && Definitions(w)[n] == Prune.PruneMethods(Definitions(v)[n], methods)
  {
    assert Prune.PruneMethods(v, methods).fields["definitions"] == Prune.PruneMethods(v.fields["definitions"], methods);
  }

  lemma PrunedReference(r: string, methods: set<string>)
    ensures Prune.PruneMethods(Obj(map[REF := Str(r)]), methods) == Obj(map[REF := Str(r)])
  {
  }

  lemma PrunedNamespace(n: string, methods: set<string>)
    requires ListedAlone(n)
    ensures IsNamespaceMap(Prune.PruneMethods(FilterFields("v2", Obj(map[n := Obj(map[])]), []), methods))
  {
    var v2 := Obj(map[n := Obj(map[])]);
    assert IsNamespaceMap(v2) && FilterFields("v2", v2, []).fields[n] == FilterFields(n, Obj(map[]), []);
    assert FilterFields("v2", v2, []).fields.Keys == {n} && FilterFields(n, Obj(map[]), []).Obj?;
  }

  lemma ReferringFiltered(n: string, e: Registry, c: Value)
    requires ListedAlone(n) && e == Registry([], {}, {n}) && c == WithoutMembers(Flatten.BundleOf(Referring(n)), e)
    ensures HasDefinitions(c) && "ClientRequest" in Definitions(c) && "v2" in Definitions(c)
    ensures Definitions(c)["ClientRequest"] == Obj(map[REF := Str(Flatten.V2 + n)]) && IsNamespaceMap(Definitions(c)["v2"])
  {
    var b := Flatten.BundleOf(Referring(n));
    ReferringFields(n, b);
    var a, methods := FilterDefinitions(FilterTitled(b, e.fields), e.fields), e.methods - {""};
    PrunedDefinition(a, methods, "ClientRequest");
    PrunedDefinition(a, methods, "v2");
    PrunedReference(Flatten.V2 + n, methods);
    PrunedNamespace(n, methods);
  }

  lemma ReferringFields(n: string, b: Value)
    requires ListedAlone(n) && b == Flatten.BundleOf(Referring(n))
    ensures var a := FilterDefinitions(FilterTitled(b, []), []);
            && HasDefinitions(a) && "ClientRequest" in Definitions(a) && "v2" in Definitions(a)
            && Definitions(a)["ClientRequest"] == Obj(map[REF := Str(Flatten.V2 + n)])
            && Definitions(a)["v2"] == FilterFields("v2", Obj(map[n := Obj(map[])]), [])
  {
    assert FilterTitled(b, []) == b && Definitions(b) == Referring(n);
    ReferenceIsNoNamespace(Flatten.V2 + n);
  }

  lemma NamesListed(b: Value, e: Registry, n: string, r: string)
    requires Flatten.HasV2Namespace(b) && Flatten.Name(n) && r == Flatten.V2 + n && n in e.types && LooksIntoV2(b, e)
    ensures !NamesNoneListed(b, e, Obj(map[REF := Str(r)]))
  {
    var request := Obj(map[REF := Str(r)]);
    assert r[|Flatten.V2|..] == n && MatchesType(n, n);
    assert LeadsToListed(b, e, r) && r[0] == '#';
    assert r in RefHere(request.fields);
  }

  /** The union stays in the filtered bundle, and so does its reference. */
  lemma ReferringLeft(n: string, b: Value, e: Registry, r: string, w: Value)
    requires ListedAlone(n) && b == Flatten.BundleOf(Referring(n)) && e == Registry([], {}, {n}) && r == Flatten.V2 + n
    requires w == FilterSchema(b, e) && Flatten.ClosedBundle(b)
    ensures Flatten.HasV2Namespace(w) && "ClientRequest" in Flatten.Kept(w)
    ensures Flatten.Defs(w)["ClientRequest"] == Obj(map[REF := Str(r)])
  {
    ReferringFiltered(n, e, WithoutMembers(b, e));
    FilteredNames(b, e);
    ReferenceIsNoNamespace(r);
  }

  /** Whatever the name: removing the type leaves the union with a reference to nothing, and the flat bundle fails. */
  lemma ListedTypeIsMissed(n: string)
    requires ListedAlone(n)
    ensures var w := FilterSchema(Flatten.BundleOf(Referring(n)), Registry([], {}, {n}));
            Flatten.HasV2Namespace(w) && Flatten.CheckFlat(Flatten.FlatOf(w)).Err?
  {
    var b, e, r := Flatten.BundleOf(Referring(n)), Registry([], {}, {n}), Flatten.V2 + n;
    ReferringIsClosed(n);
    ReferringFiltered(n, e, WithoutMembers(b, e));
    ReferringLeft(n, b, e, r, FilterSchema(b, e));
    FilteredFlattensIff(b, e);
    NamesListed(b, e, n, r);
  }
}
