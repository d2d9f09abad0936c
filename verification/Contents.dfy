/** What a bundle holds, name by name, and which inputs can be bundled. */
module Contents {
  import opened Wrappers
  import opened Json
  import opened Namespaces
  import opened Bundle

  /** What the last input that provides a name provides under it. */
  function LastProvided(schemas: seq<GeneratedSchema>, types: Types, annotate: Annotate, namespace: Option<string>, n: string): Option<Value> {
    if schemas == [] then None
    else
      var s := schemas[|schemas| - 1];
      if s.namespace == namespace && Provides(s, types, n) then Some(Provision(s, types, annotate, n))
      else LastProvided(schemas[..|schemas| - 1], types, annotate, namespace, n)
  }

  lemma {:induction false} LastProvider(schemas: seq<GeneratedSchema>, types: Types, annotate: Annotate, namespace: Option<string>, n: string)
    returns (i: nat)
    requires LastProvided(schemas, types, annotate, namespace, n).Some?
    ensures i < |schemas| && schemas[i].namespace == namespace && Provides(schemas[i], types, n)
    ensures LastProvided(schemas, types, annotate, namespace, n) == Some(Provision(schemas[i], types, annotate, n))
  {
    var last := |schemas| - 1;
    if schemas[last].namespace == namespace && Provides(schemas[last], types, n) {
      i := last;
    } else {
      i := LastProvider(schemas[..last], types, annotate, namespace, n);
    }
  }

  /** A place that definitions go to: not the entry of a namespace itself. */
  ghost predicate IsPlace(namespaces: set<string>, namespace: Option<string>, n: string) {
    if namespace.Some? then namespace.value in namespaces else n !in namespaces
  }

  lemma AddAt(defs: map<string, Value>, namespace: Option<string>, added: map<string, Value>, namespaces: set<string>,
              where: Option<string>, n: string)
    requires Shaped(defs, namespaces) && AddsPlainly(namespace, added, namespaces) && Add(defs, namespace, added).Ok?
    requires IsPlace(namespaces, where, n)
    ensures At(Add(defs, namespace, added).value, where, n) ==
            if where == namespace && n in added then Some(added[n]) else At(defs, where, n)
  {
  }

  lemma AbsorbAt(defs: map<string, Value>, s: GeneratedSchema, types: Types, namespaces: set<string>, annotate: Annotate,
                 where: Option<string>, n: string)
    requires PlaceableOne(s, namespaces)
    requires Shaped(defs, namespaces) && IsPlace(namespaces, where, n) && Absorb(defs, s, types, annotate).Ok?
    ensures At(Absorb(defs, s, types, annotate).value, where, n) ==
            if s.namespace == where && Provides(s, types, n) then Some(Provision(s, types, annotate, n)) else At(defs, where, n)
  {
    if s.logicalName !in IGNORED {
      var added, body := NewDefs(s, types, annotate), Body(s, types);
      var placed := Add(defs, s.namespace, added).value;
      AddsOfSchema(s, types, namespaces, annotate);
      AddAt(defs, s.namespace, added, namespaces, where, n);
      AddKeepsShape(defs, s.namespace, added, namespaces);
      AddOneIsAdd(placed, s.namespace, s.logicalName, body);
      AddAt(placed, s.namespace, map[s.logicalName := body], namespaces, where, n);
      DefsKeys(s, types);
    }
  }

  lemma AbsorbIsExact(schemas: seq<GeneratedSchema>, k: nat, types: Types, namespaces: set<string>, annotate: Annotate,
                      defs: map<string, Value>, next: map<string, Value>, where: Option<string>, n: string)
    requires k < |schemas| && PlaceableOne(schemas[k], namespaces)
    requires Shaped(defs, namespaces) && IsPlace(namespaces, where, n) && Absorb(defs, schemas[k], types, annotate) == Ok(next)
    requires At(defs, where, n) == LastProvided(schemas[..k], types, annotate, where, n)
    ensures At(next, where, n) == LastProvided(schemas[..k + 1], types, annotate, where, n)
  {
    assert schemas[..k + 1][..k] == schemas[..k] && schemas[..k + 1][k] == schemas[k];
    AbsorbAt(defs, schemas[k], types, namespaces, annotate, where, n);
  }

  /** After each input, every place holds what the last input that provides it put there. */
  lemma {:induction false} GatherIsExact(schemas: seq<GeneratedSchema>, k: nat, annotate: Annotate, defs: map<string, Value>,
                                         where: Option<string>, n: string)
    requires k <= |schemas| && Placeable(schemas) && IsPlace(NamespaceNames(schemas), where, n)
    requires Gather(schemas[..k], NamespacedTypes(schemas), annotate) == Ok(defs)
    ensures At(defs, where, n) == LastProvided(schemas[..k], NamespacedTypes(schemas), annotate, where, n)
  {
    if k == 0 {
      assert schemas[..k] == [] && defs == map[];
    } else {
      var types, names := NamespacedTypes(schemas), NamespaceNames(schemas);
      var before := GatherStep(schemas, k - 1, types, annotate);
      GatherIsExact(schemas, k - 1, annotate, before, where, n);
      GatherIsPlaced(schemas, k - 1, annotate, before);
      AbsorbIsExact(schemas, k - 1, types, names, annotate, before, defs, where, n);
    }
  }

  /**
   * What a reference to or into a definition denotes in the bundle: what the last input that provides the definition
   * has at that place. At the root a later definition replaces an earlier one, so a reference into it may dangle.
   */
  lemma ReferenceDenotes(schemas: seq<GeneratedSchema>, annotate: Annotate, where: Option<string>, n: string, below: Option<string>)
    requires Placeable(schemas) && IsPlace(NamespaceNames(schemas), where, n) && '/' !in n
    requires Gather(schemas, NamespacedTypes(schemas), annotate).Ok?
    ensures Resolve(Document(Gather(schemas, NamespacedTypes(schemas), annotate).value), Address(where, n) + Tail(below)) ==
            Onward(LastProvided(schemas, NamespacedTypes(schemas), annotate, where, n), below)
  {
    assert schemas[..|schemas|] == schemas;
    var defs := Gather(schemas, NamespacedTypes(schemas), annotate).value;
    GatherIsExact(schemas, |schemas|, annotate, defs, where, n);
    GatherIsPlaced(schemas, |schemas|, annotate, defs);
    if where.Some? {
      NamespacesArePlain(schemas, where.value);
    }
    ReferenceIsPlace(defs, where, n, below);
  }

  lemma NamespacesArePlain(schemas: seq<GeneratedSchema>, ns: string)
    requires Placeable(schemas) && ns in NamespaceNames(schemas)
    ensures PlainName(ns)
  {
    var i :| 0 <= i < |schemas| && schemas[i].namespace == Some(ns);
    assert PlaceableOne(schemas[i], NamespaceNames(schemas));
  }

  // ----- which inputs can be bundled

  /** `v` is one of the values that `s` puts under `n`. */
  predicate Offers(s: GeneratedSchema, types: Types, annotate: Annotate, n: string, v: Value) {
    && s.logicalName !in IGNORED
    && ((n == s.logicalName && v == Body(s, types))
        || (n in NewDefs(s, types, annotate) && v == NewDefs(s, types, annotate)[n]))
  }

  /** No two inputs put different values under one name of one namespace. */
  ghost predicate Agree(schemas: seq<GeneratedSchema>, types: Types, annotate: Annotate) {
    forall i, j, n, v, w ::
      && 0 <= i < |schemas| && 0 <= j < |schemas| && schemas[i].namespace.Some? && schemas[i].namespace == schemas[j].namespace
      && Offers(schemas[i], types, annotate, n, v) && Offers(schemas[j], types, annotate, n, w)
      ==> v == w
  }

  lemma ProvisionIsOffer(s: GeneratedSchema, types: Types, annotate: Annotate, n: string)
    requires Provides(s, types, n)
    ensures Offers(s, types, annotate, n, Provision(s, types, annotate, n))
  {
    DefsKeys(s, types);
  }

  /** What the namespace holds before the `k`-th input is no obstacle to it. */
  lemma NoCollision(schemas: seq<GeneratedSchema>, k: nat, annotate: Annotate, n: string, v: Value)
    requires k < |schemas| && Placeable(schemas) && Agree(schemas, NamespacedTypes(schemas), annotate)
    requires Gather(schemas[..k], NamespacedTypes(schemas), annotate).Ok? && schemas[k].namespace.Some?
    requires Offers(schemas[k], NamespacedTypes(schemas), annotate, n, v)
    ensures var held := At(Gather(schemas[..k], NamespacedTypes(schemas), annotate).value, schemas[k].namespace, n);
            held.None? || held == Some(v)
  {
    var types, ns := NamespacedTypes(schemas), schemas[k].namespace;
    assert ns.value in NamespaceNames(schemas);
    GatherIsExact(schemas, k, annotate, Gather(schemas[..k], types, annotate).value, ns, n);
    if LastProvided(schemas[..k], types, annotate, ns, n).Some? {
      var i := LastProvider(schemas[..k], types, annotate, ns, n);
      ProvisionIsOffer(schemas[i], types, annotate, n);
    }
  }

  /** Definitions that meet no other value under their name can be added. */
  lemma AddSucceeds(defs: map<string, Value>, namespace: Option<string>, added: map<string, Value>)
    requires namespace.Some? ==> NamespaceEntry(defs, namespace.value).Obj?
    requires namespace.Some? ==> forall n :: n in added ==> At(defs, namespace, n).None? || At(defs, namespace, n) == Some(added[n])
    ensures Add(defs, namespace, added).Ok?
  {
  }

  lemma DefinitionsFit(schemas: seq<GeneratedSchema>, k: nat, annotate: Annotate, defs: map<string, Value>)
    requires k < |schemas| && Placeable(schemas) && Agree(schemas, NamespacedTypes(schemas), annotate)
    requires Gather(schemas[..k], NamespacedTypes(schemas), annotate) == Ok(defs)
    requires schemas[k].namespace.Some? && schemas[k].logicalName !in IGNORED
    ensures Add(defs, schemas[k].namespace, NewDefs(schemas[k], NamespacedTypes(schemas), annotate)).Ok?
  {
    var s, added := schemas[k], NewDefs(schemas[k], NamespacedTypes(schemas), annotate);
    GatherIsPlaced(schemas, k, annotate, defs);
    assert s.namespace.value in NamespaceNames(schemas);
    forall n | n in added
      ensures At(defs, s.namespace, n).None? || At(defs, s.namespace, n) == Some(added[n])
    {
      NoCollision(schemas, k, annotate, n, added[n]);
    }
    AddSucceeds(defs, s.namespace, added);
  }

  lemma BodyFits(schemas: seq<GeneratedSchema>, k: nat, annotate: Annotate, defs: map<string, Value>, placed: map<string, Value>)
    requires k < |schemas| && Placeable(schemas) && Agree(schemas, NamespacedTypes(schemas), annotate)
    requires Gather(schemas[..k], NamespacedTypes(schemas), annotate) == Ok(defs)
    requires schemas[k].namespace.Some? && schemas[k].logicalName !in IGNORED
    requires Add(defs, schemas[k].namespace, NewDefs(schemas[k], NamespacedTypes(schemas), annotate)) == Ok(placed)
    ensures AddOne(placed, schemas[k].namespace, schemas[k].logicalName, Body(schemas[k], NamespacedTypes(schemas))).Ok?
  {
    var s, types, names := schemas[k], NamespacedTypes(schemas), NamespaceNames(schemas);
    var added, body := NewDefs(s, types, annotate), Body(s, types);
    GatherIsPlaced(schemas, k, annotate, defs);
    assert s.namespace.value in names;
    AddsOfSchema(s, types, names, annotate);
    AddKeepsShape(defs, s.namespace, added, names);
    AddAt(defs, s.namespace, added, names, s.namespace, s.logicalName);
    NoCollision(schemas, k, annotate, s.logicalName, body);
    assert Offers(s, types, annotate, s.logicalName, body);
    assert s.logicalName in added ==> Offers(s, types, annotate, s.logicalName, added[s.logicalName]);
    AddSucceeds(placed, s.namespace, map[s.logicalName := body]);
    AddOneIsAdd(placed, s.namespace, s.logicalName, body);
  }

  lemma AbsorbSucceeds(schemas: seq<GeneratedSchema>, k: nat, annotate: Annotate, defs: map<string, Value>)
    requires k < |schemas| && Placeable(schemas) && Agree(schemas, NamespacedTypes(schemas), annotate)
    requires Gather(schemas[..k], NamespacedTypes(schemas), annotate) == Ok(defs)
    ensures Absorb(defs, schemas[k], NamespacedTypes(schemas), annotate).Ok?
  {
    var s := schemas[k];
    if s.namespace.Some? && s.logicalName !in IGNORED {
      DefinitionsFit(schemas, k, annotate, defs);
      BodyFits(schemas, k, annotate, defs, Add(defs, s.namespace, NewDefs(s, NamespacedTypes(schemas), annotate)).value);
    }
  }

  lemma {:induction false} AgreeingGathers(schemas: seq<GeneratedSchema>, k: nat, annotate: Annotate)
    requires k <= |schemas| && Placeable(schemas) && Agree(schemas, NamespacedTypes(schemas), annotate)
    ensures Gather(schemas[..k], NamespacedTypes(schemas), annotate).Ok?
  {
    if k > 0 {
      assert schemas[..k][..k - 1] == schemas[..k - 1] && schemas[..k][k - 1] == schemas[k - 1];
      AgreeingGathers(schemas, k - 1, annotate);
      AbsorbSucceeds(schemas, k - 1, annotate, Gather(schemas[..k - 1], NamespacedTypes(schemas), annotate).value);
    }
  }

  /** Inputs can be bundled exactly when no two of them put different values under one name of a namespace. */
  lemma GathersIff(schemas: seq<GeneratedSchema>, annotate: Annotate)
    requires Placeable(schemas)
    ensures Gather(schemas, NamespacedTypes(schemas), annotate).Ok? <==> Agree(schemas, NamespacedTypes(schemas), annotate)
  {
    assert schemas[..|schemas|] == schemas;
    var types := NamespacedTypes(schemas);
    if Gather(schemas, types, annotate).Ok? {
      var defs := Gather(schemas, types, annotate).value;
      GatherIsPlaced(schemas, |schemas|, annotate, defs);
      forall i, j, n, v, w |
        && 0 <= i < |schemas| && 0 <= j < |schemas| && schemas[i].namespace.Some? && schemas[i].namespace == schemas[j].namespace
        && Offers(schemas[i], types, annotate, n, v) && Offers(schemas[j], types, annotate, n, w)
        ensures v == w
      {
        assert HoldsAllOf(defs, schemas[i], types, annotate) && HoldsAllOf(defs, schemas[j], types, annotate);
        assert Holds(defs, schemas[i].namespace, n, v) && Holds(defs, schemas[j].namespace, n, w);
      }
    } else if Agree(schemas, types, annotate) {
      AgreeingGathers(schemas, |schemas|, annotate);
    }
  }

  // ----- a root reference into a definition that a later input replaces

  /** A root schema with the one definition `n`. */
  function RootSchema(name: string, n: string, def: Value, rest: map<string, Value>): GeneratedSchema {
    GeneratedSchema(None, name, Obj(rest["definitions" := Obj(map[n := def])]), false)
  }

  /** The first input refers to a member of its definition `n`; the second has a definition `n` without it. */
  function Replacing(n: string, key: string): seq<GeneratedSchema> {
    [RootSchema("P", n, Obj(map[key := Null]), map[REF := Str(DEFS + n + "/" + key)]),
     RootSchema("Q", n, Obj(map[]), map[])]
  }

  lemma ReplacingTypes(n: string, key: string)
    ensures NamespacedTypes(Replacing(n, key)) == map[] && NamespaceNames(Replacing(n, key)) == {}
  {
    var schemas := Replacing(n, key);
    assert schemas[..1] == [schemas[0]] && schemas[..1][..0] == [];
    assert NamespacedTypes([]) == map[];
    assert NamespacedTypes([schemas[0]]) == map[];
  }

  lemma ReplacingGathers(n: string, key: string, annotate: Annotate)
    requires PlainName(n)
    ensures Placeable(Replacing(n, key)) && Gather(Replacing(n, key), map[], annotate).Ok?
  {
    var schemas := Replacing(n, key);
    ReplacingTypes(n, key);
    forall i | 0 <= i < |schemas|
      ensures PlaceableOne(schemas[i], {})
    {
      assert Claims(schemas[i]) == {schemas[i].logicalName, n};
    }
    GathersIff(schemas, annotate);
  }

  lemma PointedWithoutTypes(s: GeneratedSchema, types: Types)
    requires s.namespace.None? && types == map[]
    ensures Pointed(s, types) == s.value
  {
    MapRefsIdentity(s.value, r => ToKnownNamespace(r, types));
  }

  /** The last `n` is that of the second input. */
  lemma ReplacingLast(n: string, key: string, annotate: Annotate)
    requires PlainName(n) && n !in SKIPPED && n != "P" && n != "Q"
    ensures LastProvided(Replacing(n, key), map[], annotate, None, n) == Some(annotate(Obj(map[]), n))
  {
    var q := Replacing(n, key)[1];
    PointedWithoutTypes(q, map[]);
    assert Defs(q, map[]) == map[n := Obj(map[])];
    assert Provides(q, map[], n) && n in NewDefs(q, map[], annotate);
  }

  /** The first input keeps its reference. */
  lemma ReplacingRef(n: string, key: string, annotate: Annotate)
    requires PlainName(n) && n != "P" && n != "Q"
    ensures LastProvided(Replacing(n, key), map[], annotate, None, "P").Some?
    ensures DEFS + n + "/" + key in RefsIn(LastProvided(Replacing(n, key), map[], annotate, None, "P").value)
  {
    var schemas, r := Replacing(n, key), DEFS + n + "/" + key;
    var p := schemas[0];
    PointedWithoutTypes(p, map[]);
    assert r in RefHere(Body(p, map[]).fields);
    assert schemas[..1] == [p];
    assert LastProvided(schemas[..1], map[], annotate, None, "P") == Some(Body(p, map[]));
    assert !Provides(schemas[1], map[], "P");
  }

  lemma RefOfDefinition(defs: map<string, Value>, n: string, r: string)
    requires n in defs && r in RefsIn(defs[n])
    ensures r in RefsIn(Document(defs))
  {
    assert n in Obj(defs).fields && r in RefsIn(Obj(defs));
    assert "definitions" in Document(defs).fields && Document(defs).fields["definitions"] == Obj(defs);
  }

  lemma NoOtherMember(w: Value, key: string)
    requires Titled(Obj(map[]), w) && '/' !in key && key != "title"
    ensures Walk(w, key).None?
  {
    WalkLast(w, key);
  }

  /** At the root nothing makes later definitions agree with earlier ones: a reference into one may dangle. */
  lemma RootDefinitionIsReplaced(n: string, key: string, annotate: Annotate)
    requires PlainName(n) && n !in SKIPPED && n != "P" && n != "Q" && '/' !in key && key != "title" && Tame(annotate)
    ensures var bundle := Gather(Replacing(n, key), NamespacedTypes(Replacing(n, key)), annotate);
            && bundle.Ok?
            && DEFS + n + "/" + key in RefsIn(Document(bundle.value))
            && Resolve(Document(bundle.value), DEFS + n + "/" + key).None?
  {
    var schemas, r := Replacing(n, key), DEFS + n + "/" + key;
    ReplacingTypes(n, key);
    ReplacingGathers(n, key, annotate);
    var defs := Gather(schemas, map[], annotate).value;
    ReplacingRefers(schemas, n, key, annotate, defs);
    ReplacingDangles(schemas, n, key, annotate, defs);
  }

  ghost predicate IsReplacing(schemas: seq<GeneratedSchema>, n: string, key: string, annotate: Annotate, defs: map<string, Value>) {
    && schemas == Replacing(n, key) && Placeable(schemas)
    && NamespacedTypes(schemas) == map[] && NamespaceNames(schemas) == {} && Gather(schemas, map[], annotate) == Ok(defs)
  }

  lemma ReplacingRefers(schemas: seq<GeneratedSchema>, n: string, key: string, annotate: Annotate, defs: map<string, Value>)
    requires PlainName(n) && n != "P" && n != "Q" && IsReplacing(schemas, n, key, annotate, defs)
    ensures DEFS + n + "/" + key in RefsIn(Document(defs))
  {
    assert schemas[..|schemas|] == schemas;
    ReplacingRef(n, key, annotate);
    GatherIsExact(schemas, |schemas|, annotate, defs, None, "P");
    RefOfDefinition(defs, "P", DEFS + n + "/" + key);
  }

  lemma ReplacingDangles(schemas: seq<GeneratedSchema>, n: string, key: string, annotate: Annotate, defs: map<string, Value>)
    requires PlainName(n) && n !in SKIPPED && n != "P" && n != "Q" && '/' !in key && key != "title" && Tame(annotate)
    requires IsReplacing(schemas, n, key, annotate, defs)
    ensures Resolve(Document(defs), DEFS + n + "/" + key).None?
  {
    ReplacingLast(n, key, annotate);
    ReferenceDenotes(schemas, annotate, None, n, Some(key));
    assert Address(None, n) + Tail(Some(key)) == DEFS + n + "/" + key;
    NoOtherMember(annotate(Obj(map[]), n), key);
  }
}
