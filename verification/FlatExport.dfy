/** From the generated schemas to the flat v2 bundle. */
module FlatExport {
  import opened Wrappers
  import opened Text
  import opened Json
  import opened Namespaces
  import opened Contents
  import opened Flatten
  import Bundle
  import opened Experimental

  /** Every reference into a document names a definition of that document. */
  ghost predicate RefersPlainly(v: Value) {
    forall r :: r in RefsIn(v) && '#' in r ==> IsRootRef(r)
  }

  /** Inputs of the flat v2 export: v2 is the only namespace, and no root definition carries the name of a v2 type. */
  ghost predicate FlatInputs(schemas: seq<Bundle.GeneratedSchema>) {
    && Bundle.Admissible(schemas)
    && Bundle.NamespaceNames(schemas) == {"v2"}
    && (forall i :: 0 <= i < |schemas| ==> RefersPlainly(schemas[i].value))
    && (forall i, n :: 0 <= i < |schemas| && schemas[i].namespace.None? && Bundle.Provides(schemas[i], Bundle.NamespacedTypes(schemas), n) ==>
          n !in Bundle.NamespacedTypes(schemas))
  }

  lemma {:induction false} ClaimsAreTypes(schemas: seq<Bundle.GeneratedSchema>, i: nat)
    requires i < |schemas| && schemas[i].namespace.Some?
    ensures Bundle.Claims(schemas[i]) <= Bundle.NamespacedTypes(schemas).Keys
  {
    var last := |schemas| - 1;
    if i < last {
      ClaimsAreTypes(schemas[..last], i);
    }
  }

  lemma OnlyV2(schemas: seq<Bundle.GeneratedSchema>, i: nat)
    requires FlatInputs(schemas) && i < |schemas| && schemas[i].namespace.Some?
    ensures schemas[i].namespace.value == "v2"
  {
    assert schemas[i].namespace.value in Bundle.NamespaceNames(schemas);
  }

  lemma TypesAreV2(schemas: seq<Bundle.GeneratedSchema>, n: string)
    requires FlatInputs(schemas) && n in Bundle.NamespacedTypes(schemas)
    ensures Bundle.NamespacedTypes(schemas)[n] == "v2"
  {
    var i := Bundle.TypesOrigin(schemas, n);
    OnlyV2(schemas, i);
  }

  lemma ProvisionRefs(s: Bundle.GeneratedSchema, types: Types, annotate: Bundle.Annotate, n: string)
    requires Bundle.Tame(annotate)
    ensures RefsIn(Bundle.Provision(s, types, annotate, n)) <= RefsIn(Bundle.Pointed(s, types))
  {
    Bundle.BodyRefs(s, types);
    if n in Bundle.NewDefs(s, types, annotate) {
      Bundle.NewDefsRefs(s, types, annotate, n);
    }
  }

  /** A reference of a v2 schema leads to v2. */
  lemma V2SchemaRefs(schemas: seq<Bundle.GeneratedSchema>, i: nat, r: string)
    requires FlatInputs(schemas) && i < |schemas| && schemas[i].namespace.Some?
    requires r in RefsIn(Bundle.Pointed(schemas[i], Bundle.NamespacedTypes(schemas))) && '#' in r
    ensures IsV2Ref(r)
  {
    OnlyV2(schemas, i);
    var x := MappedFrom(schemas[i].value, r => ToNamespace(r, "v2"), r);
    PlainRefToV2(x);
  }

  lemma PlainRefToV2(x: string)
    requires '#' in x ==> IsRootRef(x)
    requires '#' in ToNamespace(x, "v2")
    ensures IsV2Ref(ToNamespace(x, "v2"))
  {
    if IsRootRef(x) {
      var n := x[|DEFS|..];
      assert ("v2" + "/")[2] == '/';
      assert |n| > 2 ==> n[2] in n;
      assert ToNamespace(x, "v2") == V2 + n;
      assert (V2 + n)[|V2|..] == n;
    }
  }

  /** A reference of a root schema leads to v2 or to the root. */
  lemma RootSchemaRefs(schemas: seq<Bundle.GeneratedSchema>, i: nat, r: string)
    requires FlatInputs(schemas) && i < |schemas| && schemas[i].namespace.None?
    requires r in RefsIn(Bundle.Pointed(schemas[i], Bundle.NamespacedTypes(schemas))) && '#' in r
    ensures IsV2Ref(r) || (IsRootRef(r) && r != DEFS + "v2")
  {
    var types := Bundle.NamespacedTypes(schemas);
    var x := RefBefore(schemas[i], types, r);
    RootSchemaNames(schemas, i, x);
    PlainRefToKnown(x, types, x[|DEFS|..]);
  }

  lemma RefBefore(s: Bundle.GeneratedSchema, types: Types, r: string) returns (x: string)
    requires s.namespace.None? && r in RefsIn(Bundle.Pointed(s, types)) && '#' in r
    ensures x in RefsIn(s.value) && ToKnownNamespace(x, types) == r && '#' in x
  {
    x := MappedFrom(s.value, r => ToKnownNamespace(r, types), r);
    assert DEFS <= x ==> x[0] == '#';
  }

  lemma RootSchemaNames(schemas: seq<Bundle.GeneratedSchema>, i: nat, x: string)
    requires FlatInputs(schemas) && i < |schemas| && x in RefsIn(schemas[i].value) && '#' in x
    ensures IsRootRef(x)
    ensures var n, types := x[|DEFS|..], Bundle.NamespacedTypes(schemas);
            n != "v2" && NamespaceFor(n, types) == Get(types, n) && (n in types ==> types[n] == "v2")
  {
    var s, n := schemas[i], x[|DEFS|..];
    BeforeAbsent(n, '/');
    assert n in Bundle.DefNames(s) && n in Bundle.Claims(s);
    if n in Bundle.NamespacedTypes(schemas) {
      TypesAreV2(schemas, n);
    }
  }

  lemma PlainRefToKnown(x: string, types: Types, n: string)
    requires IsRootRef(x) && n == x[|DEFS|..] && n != "v2"
    requires NamespaceFor(n, types) == Get(types, n) && (n in types ==> types[n] == "v2")
    ensures IsV2Ref(ToKnownNamespace(x, types)) || (IsRootRef(ToKnownNamespace(x, types)) && ToKnownNamespace(x, types) != DEFS + "v2")
  {
    BeforeAbsent(n, '/');
    if n in types {
      assert DEFS + "v2" + "/" + n == V2 + n;
      assert (V2 + n)[|V2|..] == n;
    }
  }

  /** Where a definition of the bundle comes from. */
  lemma Origin(schemas: seq<Bundle.GeneratedSchema>, annotate: Bundle.Annotate, defs: map<string, Value>,
               where: Option<string>, n: string) returns (i: nat)
    requires Bundle.Placeable(schemas) && Bundle.Gather(schemas, Bundle.NamespacedTypes(schemas), annotate) == Ok(defs)
    requires IsPlace(Bundle.NamespaceNames(schemas), where, n) && Bundle.At(defs, where, n).Some?
    ensures i < |schemas| && schemas[i].namespace == where && Bundle.Provides(schemas[i], Bundle.NamespacedTypes(schemas), n)
    ensures Bundle.At(defs, where, n) == Some(Bundle.Provision(schemas[i], Bundle.NamespacedTypes(schemas), annotate, n))
  {
    assert schemas[..|schemas|] == schemas;
    GatherIsExact(schemas, |schemas|, annotate, defs, where, n);
    i := LastProvider(schemas, Bundle.NamespacedTypes(schemas), annotate, where, n);
  }

  lemma HasV2(schemas: seq<Bundle.GeneratedSchema>, annotate: Bundle.Annotate, defs: map<string, Value>)
    requires FlatInputs(schemas) && Bundle.Gather(schemas, Bundle.NamespacedTypes(schemas), annotate) == Ok(defs)
    ensures HasV2Namespace(Bundle.Document(defs)) && REF !in defs && REF !in defs["v2"].fields
  {
    assert schemas[..|schemas|] == schemas;
    Bundle.GatherIsPlaced(schemas, |schemas|, annotate, defs);
    assert "v2" in Bundle.NamespaceNames(schemas);
    var i :| 0 <= i < |schemas| && schemas[i].namespace == Some("v2");
    assert Bundle.HoldsAllOf(defs, schemas[i], Bundle.NamespacedTypes(schemas), annotate);
  }

  /** No name is defined both at the root and in v2. */
  lemma NoClash(schemas: seq<Bundle.GeneratedSchema>, annotate: Bundle.Annotate, defs: map<string, Value>, n: string)
    requires FlatInputs(schemas) && Bundle.Gather(schemas, Bundle.NamespacedTypes(schemas), annotate) == Ok(defs)
    requires "v2" in defs && defs["v2"].Obj? && n in defs["v2"].fields
    ensures n !in defs
  {
    var i := Origin(schemas, annotate, defs, Some("v2"), n);
    ClaimsAreTypes(schemas, i);
    assert n in Bundle.Claims(schemas[i]);
    if n in defs {
      var j := Origin(schemas, annotate, defs, None, n);
      assert false;
    }
  }

  lemma V2DefinitionRefs(schemas: seq<Bundle.GeneratedSchema>, annotate: Bundle.Annotate, defs: map<string, Value>, n: string, r: string)
    requires FlatInputs(schemas) && Bundle.Tame(annotate) && Bundle.Gather(schemas, Bundle.NamespacedTypes(schemas), annotate) == Ok(defs)
    requires "v2" in defs && defs["v2"].Obj? && n in defs["v2"].fields && r in RefsIn(defs["v2"].fields[n]) && '#' in r
    ensures IsV2Ref(r)
  {
    var i := Origin(schemas, annotate, defs, Some("v2"), n);
    ProvisionRefs(schemas[i], Bundle.NamespacedTypes(schemas), annotate, n);
    V2SchemaRefs(schemas, i, r);
  }

  lemma RootDefinitionRefs(schemas: seq<Bundle.GeneratedSchema>, annotate: Bundle.Annotate, defs: map<string, Value>, n: string, r: string)
    requires FlatInputs(schemas) && Bundle.Tame(annotate) && Bundle.Gather(schemas, Bundle.NamespacedTypes(schemas), annotate) == Ok(defs)
    requires n in defs && n != "v2" && r in RefsIn(defs[n]) && '#' in r
    ensures IsV2Ref(r) || (IsRootRef(r) && r != DEFS + "v2")
  {
    var i := Origin(schemas, annotate, defs, None, n);
    ProvisionRefs(schemas[i], Bundle.NamespacedTypes(schemas), annotate, n);
    RootSchemaRefs(schemas, i, r);
  }

  lemma Resolves(schemas: seq<Bundle.GeneratedSchema>, annotate: Bundle.Annotate, defs: map<string, Value>, n: string, r: string)
    requires FlatInputs(schemas) && Bundle.Tame(annotate) && Bundle.Gather(schemas, Bundle.NamespacedTypes(schemas), annotate) == Ok(defs)
    requires n in defs && r in RefsIn(defs[n]) && DEFS <= r
    ensures Resolve(Bundle.Document(defs), r).Some?
  {
    RefOfDefinition(defs, n, r);
    Bundle.BundleRefsResolve(schemas, annotate, r);
  }

  lemma NothingOutside(defs: map<string, Value>)
    ensures RefsIn(Obj(Bundle.Document(defs).fields - {"definitions"})) == {}
  {
  }

  /** The references of a v2 definition, and of a root definition, in a closed bundle. */
  ghost predicate ClosedV2Refs(defs: map<string, Value>, v: Value) {
    forall r :: r in RefsIn(v) && '#' in r ==> IsV2Ref(r) && Resolve(Bundle.Document(defs), r).Some?
  }

  ghost predicate ClosedRootRefs(defs: map<string, Value>, v: Value) {
    forall r :: r in RefsIn(v) && '#' in r ==>
      (IsV2Ref(r) || (IsRootRef(r) && r != DEFS + "v2")) && Resolve(Bundle.Document(defs), r).Some?
  }

  lemma V2Closes(schemas: seq<Bundle.GeneratedSchema>, annotate: Bundle.Annotate, defs: map<string, Value>, v2: map<string, Value>, n: string)
    requires FlatInputs(schemas) && Bundle.Tame(annotate) && Bundle.Gather(schemas, Bundle.NamespacedTypes(schemas), annotate) == Ok(defs)
    requires "v2" in defs && defs["v2"] == Obj(v2) && n in v2
    ensures ClosedV2Refs(defs, v2[n])
  {
    forall r | r in RefsIn(v2[n]) && '#' in r
      ensures IsV2Ref(r) && Resolve(Bundle.Document(defs), r).Some?
    {
      V2DefinitionRefs(schemas, annotate, defs, n, r);
      assert n in Obj(v2).fields && r in RefsIn(Obj(v2));
      Resolves(schemas, annotate, defs, "v2", r);
    }
  }

  lemma RootCloses(schemas: seq<Bundle.GeneratedSchema>, annotate: Bundle.Annotate, defs: map<string, Value>, n: string)
    requires FlatInputs(schemas) && Bundle.Tame(annotate) && Bundle.Gather(schemas, Bundle.NamespacedTypes(schemas), annotate) == Ok(defs)
    requires n in defs && n != "v2"
    ensures ClosedRootRefs(defs, defs[n])
  {
    forall r | r in RefsIn(defs[n]) && '#' in r
      ensures (IsV2Ref(r) || (IsRootRef(r) && r != DEFS + "v2")) && Resolve(Bundle.Document(defs), r).Some?
    {
      RootDefinitionRefs(schemas, annotate, defs, n, r);
      Resolves(schemas, annotate, defs, n, r);
    }
  }

  /** The conditions on a closed bundle, on its definitions. */
  ghost predicate Closes(defs: map<string, Value>, v2: map<string, Value>) {
    && v2.Keys !! defs.Keys
    && (forall n :: n in v2 ==> ClosedV2Refs(defs, v2[n]))
    && (forall n :: n in defs && n != "v2" ==> ClosedRootRefs(defs, defs[n]))
  }

  lemma GatheredCloses(schemas: seq<Bundle.GeneratedSchema>, annotate: Bundle.Annotate, defs: map<string, Value>, v2: map<string, Value>)
    requires FlatInputs(schemas) && Bundle.Tame(annotate) && "v2" in defs && defs["v2"] == Obj(v2)
    requires Bundle.Gather(schemas, Bundle.NamespacedTypes(schemas), annotate) == Ok(defs)
    ensures Closes(defs, v2)
  {
    forall n | n in v2
      ensures n !in defs && ClosedV2Refs(defs, v2[n])
    {
      NoClash(schemas, annotate, defs, n);
      V2Closes(schemas, annotate, defs, v2, n);
    }
    forall n | n in defs && n != "v2"
      ensures ClosedRootRefs(defs, defs[n])
    {
      RootCloses(schemas, annotate, defs, n);
    }
  }

  lemma ClosesBundle(defs: map<string, Value>, v2: map<string, Value>)
    requires "v2" in defs && defs["v2"] == Obj(v2) && REF !in defs && REF !in v2 && Closes(defs, v2)
    ensures ClosedBundle(Bundle.Document(defs))
  {
    var bundle := Bundle.Document(defs);
    assert bundle.fields["definitions"] == Obj(defs) && Defs(bundle) == defs && V2Defs(bundle) == v2;
    NothingOutside(defs);
  }

  /** The bundle of such inputs is reference-closed. */
  lemma BundleIsClosed(schemas: seq<Bundle.GeneratedSchema>, annotate: Bundle.Annotate, defs: map<string, Value>)
    requires FlatInputs(schemas) && Bundle.Tame(annotate)
    requires Bundle.Gather(schemas, Bundle.NamespacedTypes(schemas), annotate) == Ok(defs)
    ensures ClosedBundle(Bundle.Document(defs))
  {
    HasV2(schemas, annotate, defs);
    GatheredCloses(schemas, annotate, defs, defs["v2"].fields);
    ClosesBundle(defs, defs["v2"].fields);
  }

  /** Such inputs flatten, and every reference of the flat bundle resolves. */
  lemma BundleFlattens(schemas: seq<Bundle.GeneratedSchema>, annotate: Bundle.Annotate, defs: map<string, Value>)
    requires FlatInputs(schemas) && Bundle.Tame(annotate)
    requires Bundle.Gather(schemas, Bundle.NamespacedTypes(schemas), annotate) == Ok(defs)
    ensures Flattenable(Bundle.Document(defs))
    ensures CheckFlat(FlatOf(Bundle.Document(defs))) == Ok(FlatOf(Bundle.Document(defs)))
    ensures RefsResolve(FlatOf(Bundle.Document(defs)))
  {
    BundleIsClosed(schemas, annotate, defs);
    ClosedBundleFlattens(Bundle.Document(defs));
    FlattenSucceeds(Bundle.Document(defs));
  }

  /** The bundle as the flat export takes it: filtered if only what is stable is exported. */
  function Exported(bundle: Value, registry: Option<Registry>): Value {
    if registry.Some? then FilterSchema(bundle, registry.value) else bundle
  }

  /** Whether the filter leaves a bundle that flattens: always without one. */
  ghost predicate StillFlattens(bundle: Value, registry: Option<Registry>) {
    HasV2Namespace(bundle) &&
    (registry.Some? ==>
       && !IsListed("v2", registry.value.types)
       && HasV2Namespace(FilterSchema(bundle, registry.value))
       && RefersToNoneListed(bundle, FilterSchema(bundle, registry.value), registry.value))
  }

  /** The document that the schemas stand for, if they can be bundled. */
  ghost predicate IsBundleOf(schemas: seq<Bundle.GeneratedSchema>, annotate: Bundle.Annotate, bundle: Value) {
    var defs := Bundle.Gather(schemas, Bundle.NamespacedTypes(schemas), annotate);
    defs.Ok? && bundle == Bundle.Document(defs.value)
  }

  lemma ExportedFlattensIff(schemas: seq<Bundle.GeneratedSchema>, annotate: Bundle.Annotate, bundle: Value, registry: Option<Registry>)
    requires FlatInputs(schemas) && Bundle.Tame(annotate) && IsBundleOf(schemas, annotate, bundle)
    ensures var w := Exported(bundle, registry);
            && (HasV2Namespace(w) && CheckFlat(FlatOf(w)).Ok? <==> StillFlattens(bundle, registry))
            && (StillFlattens(bundle, registry) ==> CheckFlat(FlatOf(w)) == Ok(FlatOf(w)) && RefsResolve(FlatOf(w)))
  {
    BundleIsClosed(schemas, annotate, bundle.fields["definitions"].fields);
    BundleFlattens(schemas, annotate, bundle.fields["definitions"].fields);
    if registry.Some? {
      FilteredFlattensIff(bundle, registry.value);
    }
  }

  lemma BuiltBundle(schemas: seq<Bundle.GeneratedSchema>, annotate: Bundle.Annotate, passes: seq<Bundle.Forced>, bundle: Value)
    requires FlatInputs(schemas) && Bundle.Tame(annotate) && Bundle.AreForced(schemas, Bundle.NamespacedTypes(schemas), passes)
    requires Bundle.GatherForced(schemas, Bundle.NamespacedTypes(schemas), annotate, passes).Ok?
    requires bundle == Bundle.Document(Bundle.GatherForced(schemas, Bundle.NamespacedTypes(schemas), annotate, passes).value)
    ensures Agree(schemas, Bundle.NamespacedTypes(schemas), annotate) && IsBundleOf(schemas, annotate, bundle)
  {
    GathersIff(schemas, annotate);
    Bundle.AdmissibleGathers(schemas, annotate, passes);
  }

  /** The outcome of the export for flat inputs. */
  ghost predicate ExportsAsItShould(schemas: seq<Bundle.GeneratedSchema>, annotate: Bundle.Annotate, registry: Option<Registry>, r: Result<Value>) {
    var agree := Agree(schemas, Bundle.NamespacedTypes(schemas), annotate);
    && (!agree ==> r.Err?)
    && (agree ==> exists bundle ::
          && IsBundleOf(schemas, annotate, bundle)
          && (r.Ok? <==> StillFlattens(bundle, registry))
          && (r.Ok? ==> HasV2Namespace(Exported(bundle, registry)) && r.value == FlatOf(Exported(bundle, registry)) && RefsResolve(r.value)))
  }

  /**
   * The steps of the export. On flat inputs it fails exactly if two of them define one v2 name differently, or if the
   * filter removes a definition that something in the flat bundle refers to; and every reference of its result resolves.
   */
  method ExportFlatV2(schemas: seq<Bundle.GeneratedSchema>, annotate: Bundle.Annotate, registry: Option<Registry>) returns (r: Result<Value>)
    ensures FlatInputs(schemas) && Bundle.Tame(annotate) ==> ExportsAsItShould(schemas, annotate, registry, r)
  {
    ghost var flat := FlatInputs(schemas) && Bundle.Tame(annotate);
    var bundle, passes := Bundle.BuildSchemaBundle(schemas, annotate);
    if bundle.Err? {
      if flat {
        GathersIff(schemas, annotate);
        Bundle.AdmissibleFails(schemas, annotate, passes);
      }
      return Err(bundle.error);
    }
    if flat {
      BuiltBundle(schemas, annotate, passes, bundle.value);
      ExportedFlattensIff(schemas, annotate, bundle.value, registry);
    }
    r := BuildFlatV2Schema(Exported(bundle.value, registry));
    if flat {
      assert IsBundleOf(schemas, annotate, bundle.value);
    }
  }
}
