/** What the built bundle holds at each address, told from the inputs alone. */
module Entries {
  import opened Wrappers
  import opened Text
  import opened Json
  import opened Namespaces
  import opened Bundle
  import opened Contents

  // ----- the inputs

  predicate HasMember(v: Value, key: string, n: string) {
    v.Obj? && key in v.fields && v.fields[key].Obj? && n in v.fields[key].fields
  }

  /** The namespace of the first namespaced input that carries the name or defines it. */
  function Owner(schemas: seq<GeneratedSchema>, n: string): Option<string> {
    if schemas == [] then None
    else
      var s := schemas[0];
      if s.namespace.Some? && (n == s.logicalName || HasMember(s.value, "definitions", n) || HasMember(s.value, "$defs", n)) then
        s.namespace
      else Owner(schemas[1..], n)
  }

  /** A name that nobody owns belongs to the owner of the name without the digits at its end. */
  function OwnerOf(schemas: seq<GeneratedSchema>, n: string): Option<string> {
    if Owner(schemas, n).Some? then Owner(schemas, n) else Owner(schemas, TrimDigits(n))
  }

  /** Where the bundle has what the reference `r` of an input denotes. */
  function Sent(schemas: seq<GeneratedSchema>, namespace: Option<string>, r: string): string {
    if !("#/definitions/" <= r) then r
    else
      var path := r[|"#/definitions/"|..];
      match namespace
      case Some(ns) => if ns + "/" <= path then r else "#/definitions/" + ns + "/" + path
      case None =>
        var owner := OwnerOf(schemas, Before(path, '/'));
        if owner.Some? then "#/definitions/" + owner.value + "/" + path else r
  }

  /** `w` is `v` with every reference sent to its place in the bundle. */
  ghost predicate Readdressed(schemas: seq<GeneratedSchema>, namespace: Option<string>, v: Value, w: Value)
    decreases v
  {
    match v
    case Obj(m) =>
      w.Obj? && w.fields.Keys == m.Keys &&
      forall k :: k in m ==>
        if k == "$ref" && m[k].Str? then w.fields[k] == Str(Sent(schemas, namespace, m[k].s))
        else Readdressed(schemas, namespace, m[k], w.fields[k])
    case Arr(xs) =>
      w.Arr? && |w.items| == |xs| && forall i :: 0 <= i < |xs| ==> Readdressed(schemas, namespace, xs[i], w.items[i])
    case _ => w == v
  }

  /** `s` puts something under `n`: itself, or one of its definitions that no namespace takes from it. */
  predicate Places(schemas: seq<GeneratedSchema>, s: GeneratedSchema, n: string) {
    && s.logicalName != "Option<()>"
    && (n == s.logicalName
        || (&& HasMember(s.value, "definitions", n)
            && n !in {"Option<()>", "ClientNotification", "ClientRequest", "ServerNotification", "ServerRequest"}
            && (s.namespace.Some? || s.inV1Dir || OwnerOf(schemas, n).None?)))
  }

  /** No later input puts something under `n` of the same namespace; in a namespace all of them agree. */
  ghost predicate Prevails(schemas: seq<GeneratedSchema>, i: nat, n: string)
    requires i < |schemas|
  {
    schemas[i].namespace.Some? || forall j :: i < j < |schemas| && schemas[j].namespace.None? ==> !Places(schemas, schemas[j], n)
  }

  /** What the document has under a name at its root or in a namespace. */
  function Found(doc: Value, namespace: Option<string>, n: string): Option<Value> {
    Resolve(doc, if namespace.Some? then "#/definitions/" + namespace.value + "/" + n else "#/definitions/" + n)
  }

  /** `doc` is the bundle that is built from the inputs. */
  ghost predicate IsBundle(schemas: seq<GeneratedSchema>, annotate: Annotate, passes: seq<Forced>, doc: Value) {
    && Placeable(schemas) && AreForced(schemas, NamespacedTypes(schemas), passes)
    && GatherForced(schemas, NamespacedTypes(schemas), annotate, passes).Ok?
    && doc == Document(GatherForced(schemas, NamespacedTypes(schemas), annotate, passes).value)
  }

  // ----- owners

  lemma {:induction false} OwnerSnoc(schemas: seq<GeneratedSchema>, s: GeneratedSchema, n: string)
    ensures Owner(schemas + [s], n) ==
            if Owner(schemas, n).Some? then Owner(schemas, n)
            else if s.namespace.Some? && n in Claims(s) then s.namespace else None
  {
    var all := schemas + [s];
    if schemas == [] {
      assert all[0] == s && all[1..] == [];
    } else {
      assert all[0] == schemas[0] && all[1..] == schemas[1..] + [s];
      OwnerSnoc(schemas[1..], s, n);
    }
  }

  /** The collected types say who owns a name. */
  lemma {:induction false} TypesAreOwners(schemas: seq<GeneratedSchema>, n: string)
    ensures Get(NamespacedTypes(schemas), n) == Owner(schemas, n)
  {
    if schemas != [] {
      var init, s := schemas[..|schemas| - 1], schemas[|schemas| - 1];
      assert schemas == init + [s];
      TypesAreOwners(init, n);
      OwnerSnoc(init, s, n);
    }
  }

  lemma NamespaceIsOwner(schemas: seq<GeneratedSchema>, n: string)
    ensures NamespaceFor(n, NamespacedTypes(schemas)) == OwnerOf(schemas, n)
  {
    TypesAreOwners(schemas, n);
    TypesAreOwners(schemas, TrimDigits(n));
  }

  lemma PlacesAreProvided(schemas: seq<GeneratedSchema>, s: GeneratedSchema, n: string)
    ensures Places(schemas, s, n) <==> Provides(s, NamespacedTypes(schemas), n)
  {
    NamespaceIsOwner(schemas, n);
  }

  // ----- addresses

  lemma SentIsPointed(schemas: seq<GeneratedSchema>, namespace: Option<string>, r: string)
    ensures Sent(schemas, namespace, r) ==
            if namespace.Some? then ToNamespace(r, namespace.value) else ToKnownNamespace(r, NamespacedTypes(schemas))
  {
    assert DEFS == "#/definitions/";
    if DEFS <= r {
      NamespaceIsOwner(schemas, Before(r[|DEFS|..], '/'));
    }
  }

  ghost predicate SendsAs(schemas: seq<GeneratedSchema>, namespace: Option<string>, f: string -> string) {
    forall r :: f(r) == Sent(schemas, namespace, r)
  }

  lemma {:induction false} MappedIsReaddressed(schemas: seq<GeneratedSchema>, namespace: Option<string>, v: Value, f: string -> string)
    requires SendsAs(schemas, namespace, f)
    ensures Readdressed(schemas, namespace, v, MapRefs(v, f))
    decreases v
  {
    match v
    case Obj(m) =>
      var w := MapRefs(v, f);
      assert REF == "$ref";
      forall k | k in m
        ensures if k == "$ref" && m[k].Str? then w.fields[k] == Str(Sent(schemas, namespace, m[k].s))
                else Readdressed(schemas, namespace, m[k], w.fields[k])
      {
        MappedIsReaddressed(schemas, namespace, m[k], f);
      }
    case Arr(xs) =>
      forall i | 0 <= i < |xs|
        ensures Readdressed(schemas, namespace, xs[i], MapRefs(v, f).items[i])
      {
        MappedIsReaddressed(schemas, namespace, xs[i], f);
      }
    case _ =>
  }

  lemma PointedIsReaddressed(schemas: seq<GeneratedSchema>, s: GeneratedSchema)
    ensures Readdressed(schemas, s.namespace, s.value, Pointed(s, NamespacedTypes(schemas)))
  {
    var types := NamespacedTypes(schemas);
    forall r
      ensures Sent(schemas, s.namespace, r) ==
              if s.namespace.Some? then ToNamespace(r, s.namespace.value) else ToKnownNamespace(r, types)
    {
      SentIsPointed(schemas, s.namespace, r);
    }
    if s.namespace.Some? {
      MappedIsReaddressed(schemas, s.namespace, s.value, r => ToNamespace(r, s.namespace.value));
    } else {
      MappedIsReaddressed(schemas, s.namespace, s.value, r => ToKnownNamespace(r, types));
    }
  }

  lemma MemberIsReaddressed(schemas: seq<GeneratedSchema>, namespace: Option<string>, v: Value, w: Value, k: string)
    requires Readdressed(schemas, namespace, v, w) && v.Obj? && k in v.fields && k != "$ref"
    ensures Readdressed(schemas, namespace, v.fields[k], w.fields[k])
  {
  }

  // ----- what the last input puts in place

  lemma BundleIsGathered(schemas: seq<GeneratedSchema>, annotate: Annotate, passes: seq<Forced>)
    requires Placeable(schemas) && AreForced(schemas, NamespacedTypes(schemas), passes)
    ensures GatherForced(schemas, NamespacedTypes(schemas), annotate, passes) == Gather(schemas, NamespacedTypes(schemas), annotate)
  {
    PlaceableTypes(schemas);
    forall i | 0 <= i < |schemas|
      ensures ForcingIsIdle(schemas[i], NamespacedTypes(schemas))
    {
      assert PlaceableOne(schemas[i], NamespaceNames(schemas)) && DefNames(schemas[i]) <= Claims(schemas[i]);
    }
    GatherIdles(schemas, NamespacedTypes(schemas), annotate, passes);
  }

  lemma FoundByAddress(doc: Value, where: Option<string>, n: string)
    ensures Found(doc, where, n) == Resolve(doc, Address(where, n)) && Address(where, n) + Tail(None) == Address(where, n)
  {
    if where.Some? {
      assert "#/definitions/" + where.value + "/" + n == Address(where, n);
    }
  }

  lemma FoundInGathered(schemas: seq<GeneratedSchema>, annotate: Annotate, defs: map<string, Value>, where: Option<string>, n: string)
    requires Placeable(schemas) && IsPlace(NamespaceNames(schemas), where, n) && '/' !in n
    requires Gather(schemas, NamespacedTypes(schemas), annotate) == Ok(defs)
    ensures Found(Document(defs), where, n) == LastProvided(schemas, NamespacedTypes(schemas), annotate, where, n)
  {
    ReferenceDenotes(schemas, annotate, where, n, None);
    FoundByAddress(Document(defs), where, n);
  }

  lemma FoundInNamespace(schemas: seq<GeneratedSchema>, annotate: Annotate, defs: map<string, Value>, i: nat, n: string)
    requires Placeable(schemas) && i < |schemas| && schemas[i].namespace.Some?
    requires Gather(schemas, NamespacedTypes(schemas), annotate) == Ok(defs) && Provides(schemas[i], NamespacedTypes(schemas), n)
    ensures Found(Document(defs), schemas[i].namespace, n) == Some(Provision(schemas[i], NamespacedTypes(schemas), annotate, n))
  {
    BundleHoldsEveryInput(schemas, annotate, i, n);
    FoundByAddress(Document(defs), schemas[i].namespace, n);
  }

  lemma FoundIsLast(schemas: seq<GeneratedSchema>, annotate: Annotate, passes: seq<Forced>, doc: Value, where: Option<string>, n: string)
    requires IsBundle(schemas, annotate, passes, doc) && IsPlace(NamespaceNames(schemas), where, n) && '/' !in n
    ensures Found(doc, where, n) == LastProvided(schemas, NamespacedTypes(schemas), annotate, where, n)
  {
    BundleIsGathered(schemas, annotate, passes);
    FoundInGathered(schemas, annotate, Gather(schemas, NamespacedTypes(schemas), annotate).value, where, n);
  }

  lemma {:induction false} SomeProvider(schemas: seq<GeneratedSchema>, types: Types, annotate: Annotate, where: Option<string>, n: string, i: nat)
    requires i < |schemas| && schemas[i].namespace == where && Provides(schemas[i], types, n)
    ensures LastProvided(schemas, types, annotate, where, n).Some?
  {
    var last := |schemas| - 1;
    if i < last {
      SomeProvider(schemas[..last], types, annotate, where, n, i);
    }
  }

  lemma {:induction false} LastOfAll(schemas: seq<GeneratedSchema>, types: Types, annotate: Annotate, where: Option<string>, n: string, i: nat)
    requires i < |schemas| && schemas[i].namespace == where && Provides(schemas[i], types, n)
    requires forall j :: i < j < |schemas| && schemas[j].namespace == where ==> !Provides(schemas[j], types, n)
    ensures LastProvided(schemas, types, annotate, where, n) == Some(Provision(schemas[i], types, annotate, n))
  {
    var last := |schemas| - 1;
    if i < last {
      assert schemas[last].namespace == where ==> !Provides(schemas[last], types, n);
      LastOfAll(schemas[..last], types, annotate, where, n, i);
    }
  }

  /** An address of the bundle holds something exactly if some input places something there. */
  lemma PlaceIsTakenIff(schemas: seq<GeneratedSchema>, annotate: Annotate, passes: seq<Forced>, doc: Value,
                        where: Option<string>, n: string)
    requires IsBundle(schemas, annotate, passes, doc) && IsPlace(NamespaceNames(schemas), where, n) && '/' !in n
    ensures Found(doc, where, n).Some? <==> exists i :: 0 <= i < |schemas| && schemas[i].namespace == where && Places(schemas, schemas[i], n)
  {
    var types := NamespacedTypes(schemas);
    FoundIsLast(schemas, annotate, passes, doc, where, n);
    if Found(doc, where, n).Some? {
      var i := LastProvider(schemas, types, annotate, where, n);
      PlacesAreProvided(schemas, schemas[i], n);
    }
    if i :| 0 <= i < |schemas| && schemas[i].namespace == where && Places(schemas, schemas[i], n) {
      PlacesAreProvided(schemas, schemas[i], n);
      SomeProvider(schemas, types, annotate, where, n, i);
    }
  }

  lemma PrevailingIsLast(schemas: seq<GeneratedSchema>, annotate: Annotate, i: nat, n: string)
    requires i < |schemas| && schemas[i].namespace.None? && Prevails(schemas, i, n) && Provides(schemas[i], NamespacedTypes(schemas), n)
    ensures LastProvided(schemas, NamespacedTypes(schemas), annotate, None, n) ==
            Some(Provision(schemas[i], NamespacedTypes(schemas), annotate, n))
  {
    forall j | i < j < |schemas| && schemas[j].namespace == None
      ensures !Provides(schemas[j], NamespacedTypes(schemas), n)
    {
      PlacesAreProvided(schemas, schemas[j], n);
    }
    LastOfAll(schemas, NamespacedTypes(schemas), annotate, None, n, i);
  }

  lemma FoundIsProvision(schemas: seq<GeneratedSchema>, annotate: Annotate, passes: seq<Forced>, doc: Value, i: nat, n: string)
    requires IsBundle(schemas, annotate, passes, doc) && i < |schemas| && Places(schemas, schemas[i], n) && Prevails(schemas, i, n)
    ensures Found(doc, schemas[i].namespace, n) == Some(Provision(schemas[i], NamespacedTypes(schemas), annotate, n))
  {
    var s, types, names := schemas[i], NamespacedTypes(schemas), NamespaceNames(schemas);
    assert PlaceableOne(s, names);
    PlacesAreProvided(schemas, s, n);
    ProvidedNameIsPlain(s, types, names, n);
    assert n in Claims(s);
    if s.namespace.Some? {
      BundleIsGathered(schemas, annotate, passes);
      FoundInNamespace(schemas, annotate, Gather(schemas, types, annotate).value, i, n);
    } else {
      FoundIsLast(schemas, annotate, passes, doc, None, n);
      PrevailingIsLast(schemas, annotate, i, n);
    }
  }

  lemma BodyHasTheRest(s: GeneratedSchema, types: Types)
    ensures s.value.Obj? ==> Body(s, types).Obj? && Body(s, types).fields.Keys == s.value.fields.Keys - {"definitions"}
    ensures s.value.Obj? ==> forall k :: k in Body(s, types).fields ==> Body(s, types).fields[k] == Pointed(s, types).fields[k]
    ensures !s.value.Obj? ==> Body(s, types) == Pointed(s, types)
  {
  }

  lemma BodyIsReaddressed(schemas: seq<GeneratedSchema>, s: GeneratedSchema)
    ensures Readdressed(schemas, s.namespace, if s.value.Obj? then Obj(s.value.fields - {"definitions"}) else s.value,
                        Body(s, NamespacedTypes(schemas)))
  {
    BodyHasTheRest(s, NamespacedTypes(schemas));
    PointedIsReaddressed(schemas, s);
  }

  /**
   * Under its own name an input has its schema without the definitions: the same members, each with every reference
   * replaced by the address of what it denotes.
   */
  lemma OwnNameHolds(schemas: seq<GeneratedSchema>, annotate: Annotate, passes: seq<Forced>, doc: Value, i: nat)
    requires IsBundle(schemas, annotate, passes, doc) && i < |schemas|
    requires schemas[i].logicalName != "Option<()>" && Prevails(schemas, i, schemas[i].logicalName)
    ensures var s, found := schemas[i], Found(doc, schemas[i].namespace, schemas[i].logicalName);
            && found.Some?
            && Readdressed(schemas, s.namespace, if s.value.Obj? then Obj(s.value.fields - {"definitions"}) else s.value, found.value)
  {
    var s := schemas[i];
    FoundIsProvision(schemas, annotate, passes, doc, i, s.logicalName);
    BodyIsReaddressed(schemas, s);
  }

  /** Under the name of a definition that it places, an input has that definition, references replaced and titles added. */
  lemma DefinitionHolds(schemas: seq<GeneratedSchema>, annotate: Annotate, passes: seq<Forced>, doc: Value, i: nat, n: string)
    returns (def: Value)
    requires IsBundle(schemas, annotate, passes, doc) && i < |schemas| && Tame(annotate)
    requires Places(schemas, schemas[i], n) && n != schemas[i].logicalName && Prevails(schemas, i, n)
    ensures Readdressed(schemas, schemas[i].namespace, schemas[i].value.fields["definitions"].fields[n], def)
    ensures Found(doc, schemas[i].namespace, n) == Some(annotate(def, n))
  {
    var s, types := schemas[i], NamespacedTypes(schemas);
    FoundIsProvision(schemas, annotate, passes, doc, i, n);
    PlacesAreProvided(schemas, s, n);
    DefsKeys(s, types);
    assert n in NewDefs(s, types, annotate);
    NewDefsRefs(s, types, annotate, n);
    def := Defs(s, types)[n];
    var pointed := Pointed(s, types);
    PointedIsReaddressed(schemas, s);
    assert PlaceableOne(s, NamespaceNames(schemas)) && n in Claims(s);
    assert "definitions" != "$ref" by { assert |"definitions"| == 11; }
    MemberIsReaddressed(schemas, s.namespace, s.value, pointed, "definitions");
    MemberIsReaddressed(schemas, s.namespace, s.value.fields["definitions"], pointed.fields["definitions"], n);
  }

  /** The bundle names its dialect and itself, and holds nothing else next to the definitions. */
  lemma BundleHeader(schemas: seq<GeneratedSchema>, annotate: Annotate, passes: seq<Forced>, doc: Value)
    requires IsBundle(schemas, annotate, passes, doc)
    ensures doc.Obj? && doc.fields.Keys == {"$schema", "title", "type", "definitions"} && doc.fields["definitions"].Obj?
    ensures doc.fields["$schema"] == Str("http://json-schema.org/draft-07/schema#")
    ensures doc.fields["title"] == Str("CodexAppServerProtocol") && doc.fields["type"] == Str("object")
  {
    assert |"$schema"| == 7 && |"title"| == 5 && |"type"| == 4 && |"definitions"| == 11;
  }
}
