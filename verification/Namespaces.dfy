/** The passes that point references of one schema at their place in a namespaced bundle. */
module Namespaces {
  import opened Wrappers
  import opened Text
  import opened Json

  /** Which namespace owns each namespaced type. */
  type Types = map<string, string>

  /** `namespace_for_definition`: by the name itself, or by the name without its trailing digits. */
  function NamespaceFor(name: string, types: Types): Option<string> {
    if name in types then Some(types[name])
    else if TrimDigits(name) != name then Get(types, TrimDigits(name))
    else None
  }

  function ToNamespace(ref: string, ns: string): string {
    if DEFS <= ref && !(ns + "/" <= ref[|DEFS|..]) then DEFS + ns + "/" + ref[|DEFS|..] else ref
  }

  function ToKnownNamespace(ref: string, types: Types): string {
    if DEFS <= ref then
      var suffix := ref[|DEFS|..];
      match NamespaceFor(Before(suffix, '/'), types)
      case Some(ns) => DEFS + ns + "/" + suffix
      case None => ref
    else ref
  }

  function ToForcedNamespace(ref: string, ns: string, name: string): string {
    if ref == DEFS + name then DEFS + ns + "/" + name
    else if DEFS + name + "/" <= ref then DEFS + ns + "/" + name + "/" + ref[|DEFS + name + "/"|..]
    else ref
  }

  /** `rewrite_refs_to_namespace`. */
  function RewriteToNamespace(v: Value, ns: string): Value {
    MapRefs(v, r => ToNamespace(r, ns))
  }

  /** `rewrite_refs_to_known_namespaces`. */
  function RewriteToKnownNamespaces(v: Value, types: Types): Value {
    MapRefs(v, r => ToKnownNamespace(r, types))
  }

  /** `rewrite_named_ref_to_namespace`. */
  function RewriteToForcedNamespace(v: Value, ns: string, name: string): Value {
    MapRefs(v, r => ToForcedNamespace(r, ns, name))
  }

  lemma ToNamespaceTwice(ref: string, ns: string)
    ensures ToNamespace(ToNamespace(ref, ns), ns) == ToNamespace(ref, ns)
  {
  }

  lemma RewriteToNamespaceFixes(v: Value, w: Value, ns: string)
    requires RefsIn(w) <= RefsIn(RewriteToNamespace(v, ns))
    ensures RewriteToNamespace(w, ns) == w
  {
    forall r | r in RefsIn(w)
      ensures ToNamespace(r, ns) == r
    {
      var x := MappedFrom(v, r => ToNamespace(r, ns), r);
      ToNamespaceTwice(x, ns);
    }
    MapRefsIdentity(w, r => ToNamespace(r, ns));
  }

  /** Pointing a schema at its namespace twice is pointing it there once. */
  lemma RewriteToNamespaceIsIdempotent(v: Value, ns: string)
    ensures RewriteToNamespace(RewriteToNamespace(v, ns), ns) == RewriteToNamespace(v, ns)
  {
    RewriteToNamespaceFixes(v, RewriteToNamespace(v, ns), ns);
  }

  /** Names and namespaces are single path segments. */
  predicate Segments(types: Types) {
    forall n :: n in types ==> '/' !in n && '/' !in types[n]
  }

  /** The first segment after `#/definitions/`, if the reference is a local one. */
  function HeadOf(ref: string): Option<string> {
    if DEFS <= ref then Some(Before(ref[|DEFS|..], '/')) else None
  }

  lemma HeadAfterKnown(ref: string, types: Types)
    requires Segments(types)
    ensures var after := HeadOf(ToKnownNamespace(ref, types));
            after.None? || after.value in types.Values || NamespaceFor(after.value, types).None?
  {
    if DEFS <= ref {
      var suffix := ref[|DEFS|..];
      var head := Before(suffix, '/');
      match NamespaceFor(head, types)
      case Some(ns) =>
        var key :| key in types && types[key] == ns;
        var after := DEFS + ns + "/" + suffix;
        assert after[|DEFS|..] == ns + ['/'] + suffix;
        BeforeJoined(ns, '/', suffix);
        assert HeadOf(after) == Some(ns);
      case None =>
    }
  }

  lemma ForcedOnlyHitsHead(ref: string, ns: string, name: string)
    requires '/' !in name && HeadOf(ref) != Some(name)
    ensures ToForcedNamespace(ref, ns, name) == ref
  {
    if ref == DEFS + name {
      assert ref[|DEFS|..] == name;
      BeforeAbsent(name, '/');
      assert false;
    } else if DEFS + name + "/" <= ref {
      var rest := ref[|DEFS + name + "/"|..];
      assert ref[|DEFS|..] == name + ['/'] + rest;
      BeforeJoined(name, '/', rest);
      assert false;
    }
  }

  /** The forced pass sends exactly the references to or into the definition `name` to its place in the namespace. */
  lemma ForcedByHead(ref: string, ns: string, name: string)
    requires '/' !in name
    ensures ToForcedNamespace(ref, ns, name) ==
            if HeadOf(ref) == Some(name) then "#/definitions/" + ns + "/" + ref[|"#/definitions/"|..] else ref
  {
    assert DEFS == "#/definitions/";
    if HeadOf(ref) == Some(name) {
      var path := ref[|DEFS|..];
      assert ref == DEFS + path && name <= path;
      if path != name {
        var rest := path[|name| + 1..];
        assert path == name + "/" + rest;
        assert ref == DEFS + name + "/" + rest;
        assert DEFS + ns + "/" + name + "/" + rest == DEFS + ns + "/" + path;
      }
    } else {
      ForcedOnlyHitsHead(ref, ns, name);
    }
  }

  lemma ForcedFixes(ref: string, types: Types, ns: string, name: string)
    requires Segments(types) && '/' !in name && NamespaceFor(name, types).Some? && name !in types.Values
    ensures ToForcedNamespace(ToKnownNamespace(ref, types), ns, name) == ToKnownNamespace(ref, types)
  {
    HeadAfterKnown(ref, types);
    ForcedOnlyHitsHead(ToKnownNamespace(ref, types), ns, name);
  }

  lemma ForcedPassFixes(v: Value, w: Value, types: Types, ns: string, name: string)
    requires Segments(types) && '/' !in name && NamespaceFor(name, types).Some? && name !in types.Values
    requires RefsIn(w) <= RefsIn(RewriteToKnownNamespaces(v, types))
    ensures RewriteToForcedNamespace(w, ns, name) == w
  {
    forall r | r in RefsIn(w)
      ensures ToForcedNamespace(r, ns, name) == r
    {
      var x := MappedFrom(v, r => ToKnownNamespace(r, types), r);
      ForcedFixes(x, types, ns, name);
    }
    MapRefsIdentity(w, r => ToForcedNamespace(r, ns, name));
  }

  /** The forced pass never changes anything after the pass over known namespaces. */
  ghost predicate ForcedPassIsIdle(types: Types, ns: string, name: string) {
    forall v: Value :: var known := RewriteToKnownNamespaces(v, types); RewriteToForcedNamespace(known, ns, name) == known
  }

  /** A bare reference to a type of the namespace `name` is what the forced pass would rewrite twice. */
  lemma ForcedPassDoublesNamespace(types: Types, ns: string, name: string, key: string)
    requires Segments(types) && key in types && types[key] == name
    ensures var v := Obj(map[REF := Str(DEFS + key)]);
            RewriteToForcedNamespace(RewriteToKnownNamespaces(v, types), ns, name) != RewriteToKnownNamespaces(v, types)
  {
    var v := Obj(map[REF := Str(DEFS + key)]);
    assert (DEFS + key)[|DEFS|..] == key;
    BeforeAbsent(key, '/');
    var once := DEFS + name + "/" + key;
    assert ToKnownNamespace(DEFS + key, types) == once;
    var twice := ToForcedNamespace(once, ns, name);
    assert DEFS + name + "/" <= once;
    assert once != DEFS + name;
    assert |twice| == |once| + |ns| + 1;
    var w := RewriteToKnownNamespaces(v, types);
    assert w.fields[REF] == Str(once);
    assert RewriteToForcedNamespace(w, ns, name).fields[REF] == Str(twice);
  }

  /**
   * For a type that some namespace owns, the forced pass is idle on every schema exactly when the type's
   * name is not itself the name of a namespace.
   */
  lemma ForcedPassIsIdleIff(types: Types, name: string)
    requires Segments(types) && '/' !in name && NamespaceFor(name, types).Some?
    ensures ForcedPassIsIdle(types, NamespaceFor(name, types).value, name) <==> name !in types.Values
  {
    var ns := NamespaceFor(name, types).value;
    if name in types.Values {
      var key :| key in types && types[key] == name;
      ForcedPassDoublesNamespace(types, ns, name, key);
    } else {
      forall v: Value
        ensures var known := RewriteToKnownNamespaces(v, types); RewriteToForcedNamespace(known, ns, name) == known
      {
        ForcedPassFixes(v, RewriteToKnownNamespaces(v, types), types, ns, name);
      }
    }
  }
}
