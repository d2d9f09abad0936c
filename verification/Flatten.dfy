/**
 * The flat v2 bundle: every definition nested under `definitions.v2` moves to the root
 * definitions map, joined by the shared root unions and the root helpers they need.
 */
module Flatten {
  import opened Wrappers
  import opened Text
  import opened Json
  import opened Reachability

  const V2 := DEFS + "v2/"
  const SHARED := {"ClientRequest", "ServerNotification"}

  /** Names of the root definitions that `v` refers to. */
  function NonV2Refs(v: Value): set<string> {
    set r | r in RefsIn(v) && DEFS <= r && !(V2 <= r) :: r[|DEFS|..]
  }

  function RefGraph(defs: map<string, Value>): Graph {
    map n | n in defs :: NonV2Refs(defs[n])
  }

  /** A vector of a set's members in whatever order the hasher yields them. */
  method InAnyOrder(s: set<string>) returns (xs: seq<string>)
    ensures forall x :: x in xs <==> x in s
    ensures |xs| == |s|
  {
    xs := [];
    var rest := s;
    while rest != {}
      invariant rest <= s
      invariant forall x :: x in xs <==> x in s - rest
      invariant |xs| + |rest| == |s|
      decreases rest
    {
      var x :| x in rest;
      xs := xs + [x];
      rest := rest - {x};
    }
  }

  /** One name taken off the worklist. */
  method Visit(defs: map<string, Value>, ghost names: set<string>, seen: set<string>, work: seq<string>)
    returns (seen2: set<string>, work2: seq<string>)
    requires work != [] && Exploring(RefGraph(defs), names, seen, work)
    ensures Exploring(RefGraph(defs), names, seen2, work2)
    ensures Universe(RefGraph(defs), names) - seen2 < Universe(RefGraph(defs), names) - seen
         || (seen2 == seen && |work2| < |work|)
  {
    var name := work[|work| - 1];
    seen2, work2 := seen, work[..|work| - 1];
    if name in seen {
      ExploreSkip(RefGraph(defs), names, seen, work);
    } else {
      if name in defs {
        work2 := PushUnseen(work2, NonV2Refs(defs[name]), seen + {name});
      }
      ExploreVisit(RefGraph(defs), names, seen, work, work2);
      seen2 := seen + {name};
    }
  }

  /** The worklist of `collect_definition_dependencies`, correct for every order of the initial names. */
  method CollectDefinitionDependencies(defs: map<string, Value>, names: set<string>) returns (seen: set<string>)
    ensures seen == Reach(RefGraph(defs), names)
  {
    ghost var g := RefGraph(defs);
    seen := {};
    var work := InAnyOrder(names);
    ReachHasRoots(g, names);
    while work != []
      invariant Exploring(g, names, seen, work)
      decreases Universe(g, names) - seen, |work|
    {
      seen, work := Visit(defs, names, seen, work);
    }
    ExploreDone(g, names, seen);
  }

  method PushUnseen(work: seq<string>, deps: set<string>, seen: set<string>) returns (out: seq<string>)
    ensures forall n :: n in out <==> n in work || n in deps - seen
  {
    out := work;
    var rest := deps;
    while rest != {}
      invariant rest <= deps
      invariant forall n :: n in out <==> n in work || n in deps - rest - seen
      decreases rest
    {
      var dep :| dep in rest;
      if dep !in seen {
        out := out + [dep];
      }
      rest := rest - {dep};
    }
  }

  // ----- build_flat_v2_schema

  function SharedDefinitions(defs: map<string, Value>): map<string, Value> {
    Restrict(defs, SHARED)
  }

  function SharedRefs(defs: map<string, Value>): set<string> {
    set n, r | n in SharedDefinitions(defs) && r in NonV2Refs(defs[n]) :: r
  }

  function FlatDefinitions(defs: map<string, Value>, v2: map<string, Value>, deps: set<string>): map<string, Value> {
    v2 + (map n | n in deps && n != "v2" && n !in v2 && n in defs :: defs[n]) + SharedDefinitions(defs)
  }

  function FlatTitle(root: map<string, Value>): string {
    (if "title" in root && root["title"].Str? then root["title"].s else "CodexAppServerProtocol") + "V2"
  }

  /** `rewrite_ref_prefix` with the prefixes the flat bundle uses, on one reference. */
  function FlatRef(r: string): string {
    Replace(r, V2, DEFS)
  }

  function FlatDocument(root: map<string, Value>, flat: map<string, Value>): Value {
    MapRefs(Obj(root["title" := Str(FlatTitle(root))]["definitions" := Obj(flat)]), FlatRef)
  }

  /** Names that some reference of `doc` needs and `defs` lacks. */
  function MissingDefinitions(doc: Value, defs: map<string, Value>): set<string> {
    set r | r in RefsIn(doc) && DEFS <= r && Before(r[|DEFS|..], '/') !in defs :: Before(r[|DEFS|..], '/')
  }

  /** The two closing checks: no reference into the namespace is left, and every reference has its definition. */
  function CheckFlat(doc: Value): Result<Value> {
    if exists r :: r in RefsIn(doc) && V2 <= r then Err("flat v2 schema still references namespaced definitions")
    else if !(doc.Obj? && "definitions" in doc.fields && doc.fields["definitions"].Obj?) then
      Err("expected definitions map in flat v2 schema")
    else if MissingDefinitions(doc, doc.fields["definitions"].fields) != {} then
      Err("flat v2 schema missing definitions")
    else Ok(doc)
  }

  /** A document passes exactly if none of its references leads into v2 and each local one leads to or into a definition. */
  lemma AcceptedIff(doc: Value)
    ensures CheckFlat(doc).Ok? <==>
            && doc.Obj? && "definitions" in doc.fields && doc.fields["definitions"].Obj?
            && forall r :: r in RefsIn(doc) && "#/definitions/" <= r ==>
                 && !("#/definitions/v2/" <= r)
                 && Before(r[|"#/definitions/"|..], '/') in doc.fields["definitions"].fields
  {
    assert DEFS == "#/definitions/" && V2 == "#/definitions/v2/";
    if doc.Obj? && "definitions" in doc.fields && doc.fields["definitions"].Obj? {
      var defs := doc.fields["definitions"].fields;
      var missing := MissingDefinitions(doc, defs);
      if missing != {} {
        var n :| n in missing;
        var r :| r in RefsIn(doc) && DEFS <= r && Before(r[|DEFS|..], '/') !in defs && Before(r[|DEFS|..], '/') == n;
      }
      assert forall r :: r in RefsIn(doc) && DEFS <= r && Before(r[|DEFS|..], '/') !in defs ==> Before(r[|DEFS|..], '/') in missing;
    }
  }

  predicate HasV2Namespace(bundle: Value) {
    && bundle.Obj? && "definitions" in bundle.fields && bundle.fields["definitions"].Obj?
    && var defs := bundle.fields["definitions"].fields;
       "v2" in defs && defs["v2"].Obj?
  }

  function Defs(bundle: Value): map<string, Value>
    requires HasV2Namespace(bundle)
  {
    bundle.fields["definitions"].fields
  }

  function V2Defs(bundle: Value): map<string, Value>
    requires HasV2Namespace(bundle)
  {
    Defs(bundle)["v2"].fields
  }

  /** The unchecked flat document of a bundle, by the closure of the shared definitions' references. */
  ghost function FlatOf(bundle: Value): Value
    requires HasV2Namespace(bundle)
  {
    var defs := Defs(bundle);
    FlatDocument(bundle.fields, FlatDefinitions(defs, V2Defs(bundle), Reach(RefGraph(defs), SharedRefs(defs))))
  }

  method BuildFlatV2Schema(bundle: Value) returns (r: Result<Value>)
    ensures r.Ok? ==> HasV2Namespace(bundle)
    ensures HasV2Namespace(bundle) ==> r == CheckFlat(FlatOf(bundle))
  {
    if !bundle.Obj? {
      return Err("expected bundle root to be an object");
    }
    var root := bundle.fields;
    if !("definitions" in root && root["definitions"].Obj?) {
      return Err("expected bundle definitions map");
    }
    var defs := root["definitions"].fields;
    if !("v2" in defs && defs["v2"].Obj?) {
      return Err("expected v2 namespace in bundle definitions");
    }
    var deps := CollectDefinitionDependencies(defs, SharedRefs(defs));
    return CheckFlat(FlatDocument(root, FlatDefinitions(defs, defs["v2"].fields, deps)));
  }

  // ----- which bundles flatten

  /** A name that can stand as one segment of a reference. */
  predicate Name(n: string) {
    '/' !in n && '#' !in n
  }

  predicate IsV2Ref(r: string) {
    V2 <= r && Name(r[|V2|..])
  }

  predicate IsRootRef(r: string) {
    DEFS <= r && Name(r[|DEFS|..])
  }

  /** The root definitions that the flat bundle takes over. */
  ghost function Kept(bundle: Value): set<string>
    requires HasV2Namespace(bundle)
  {
    var defs := Defs(bundle);
    set n | n in defs && n != "v2" && (n in SHARED || n in Reach(RefGraph(defs), SharedRefs(defs)))
  }

  /** A reference into v2, to a kept root definition, or to another document. */
  ghost predicate SafeRef(bundle: Value, r: string)
    requires HasV2Namespace(bundle)
  {
    || (IsV2Ref(r) && r[|V2|..] in V2Defs(bundle))
    || (IsRootRef(r) && r[|DEFS|..] in Kept(bundle))
    || '#' !in r
  }

  ghost predicate SafeRefs(bundle: Value, v: Value)
    requires HasV2Namespace(bundle)
  {
    forall r :: r in RefsIn(v) ==> SafeRef(bundle, r)
  }

  /** Nothing that the flat bundle includes refers to something it leaves behind, and no name means two things. */
  ghost predicate Flattenable(bundle: Value) {
    && HasV2Namespace(bundle)
    && V2Defs(bundle).Keys !! Kept(bundle)
    && REF !in V2Defs(bundle) && REF !in Kept(bundle)
    && SafeRefs(bundle, Obj(bundle.fields - {"definitions"}))
    && (forall n :: n in V2Defs(bundle) ==> SafeRefs(bundle, V2Defs(bundle)[n]))
    && (forall n :: n in Kept(bundle) ==> SafeRefs(bundle, Defs(bundle)[n]))
  }

  /** The definitions map of a flat document, spelled out name by name. */
  ghost predicate FlatForm(bundle: Value, doc: Value)
    requires HasV2Namespace(bundle)
  {
    && doc.Obj? && "definitions" in doc.fields && doc.fields["definitions"].Obj?
    && var flat := doc.fields["definitions"].fields;
       && flat.Keys == V2Defs(bundle).Keys + Kept(bundle)
       && (forall n :: n in V2Defs(bundle) ==> flat[n] == MapRefs(V2Defs(bundle)[n], FlatRef))
       && (forall n :: n in Kept(bundle) ==> flat[n] == MapRefs(Defs(bundle)[n], FlatRef))
  }

  lemma RawEntry(bundle: Value, raw: map<string, Value>, n: string)
    requires HasV2Namespace(bundle) && V2Defs(bundle).Keys !! Kept(bundle)
    requires raw == FlatDefinitions(Defs(bundle), V2Defs(bundle), Reach(RefGraph(Defs(bundle)), SharedRefs(Defs(bundle))))
    ensures n in raw <==> n in V2Defs(bundle) || n in Kept(bundle)
    ensures n in raw ==> raw[n] == if n in V2Defs(bundle) then V2Defs(bundle)[n] else Defs(bundle)[n]
  {
  }

  lemma RawEntries(bundle: Value)
    requires HasV2Namespace(bundle) && V2Defs(bundle).Keys !! Kept(bundle)
    ensures var raw := FlatDefinitions(Defs(bundle), V2Defs(bundle), Reach(RefGraph(Defs(bundle)), SharedRefs(Defs(bundle))));
            && raw.Keys == V2Defs(bundle).Keys + Kept(bundle)
            && forall n :: n in raw ==> raw[n] == if n in V2Defs(bundle) then V2Defs(bundle)[n] else Defs(bundle)[n]
  {
    var raw := FlatDefinitions(Defs(bundle), V2Defs(bundle), Reach(RefGraph(Defs(bundle)), SharedRefs(Defs(bundle))));
    forall n
      ensures n in raw <==> n in V2Defs(bundle) || n in Kept(bundle)
      ensures n in raw ==> raw[n] == if n in V2Defs(bundle) then V2Defs(bundle)[n] else Defs(bundle)[n]
    {
      RawEntry(bundle, raw, n);
    }
  }

  lemma FlatOfForm(bundle: Value)
    requires HasV2Namespace(bundle) && V2Defs(bundle).Keys !! Kept(bundle) && REF !in V2Defs(bundle) && REF !in Kept(bundle)
    ensures FlatForm(bundle, FlatOf(bundle))
  {
    var defs := Defs(bundle);
    var raw := FlatDefinitions(defs, V2Defs(bundle), Reach(RefGraph(defs), SharedRefs(defs)));
    RawEntries(bundle);
    FlatFields(bundle, raw);
  }

  lemma FlatFields(bundle: Value, raw: map<string, Value>)
    requires HasV2Namespace(bundle)
    requires raw == FlatDefinitions(Defs(bundle), V2Defs(bundle), Reach(RefGraph(Defs(bundle)), SharedRefs(Defs(bundle))))
    requires REF !in raw
    ensures FlatOf(bundle).Obj? && "definitions" in FlatOf(bundle).fields
    ensures FlatOf(bundle).fields["definitions"] == Obj(map n | n in raw :: MapRefs(raw[n], FlatRef))
  {
    assert FlatOf(bundle).fields["definitions"] == MapRefs(Obj(raw), FlatRef);
  }

  lemma FlatRefCases(r: string)
    ensures IsV2Ref(r) ==> FlatRef(r) == DEFS + r[|V2|..]
    ensures IsRootRef(r) || '#' !in r ==> FlatRef(r) == r
  {
    if IsV2Ref(r) {
      ReplacePrefix(r[|V2|..], V2, DEFS);
      assert r == V2 + r[|V2|..];
    }
    if '#' !in r {
      ReplaceAbsent(r, V2, DEFS);
    }
    if IsRootRef(r) {
      RootRefIsNotV2(r);
      assert r == DEFS + r[|DEFS|..];
      assert '#' !in DEFS[1..];
      ReplaceElsewhere(r, V2, DEFS);
    }
  }

  lemma RootRefIsNotV2(r: string)
    requires IsRootRef(r)
    ensures !(V2 <= r)
  {
    assert V2[|V2| - 1] == '/';
    assert |r| >= |V2| ==> r[|V2| - 1] == r[|DEFS|..][|V2| - 1 - |DEFS|];
  }

  /** One level of lookup in any document that has a definitions object. */
  lemma ResolveRoot(doc: Value, n: string)
    requires Name(n) && doc.Obj? && "definitions" in doc.fields
    ensures doc.fields["definitions"].Obj? ==> Resolve(doc, DEFS + n) == Get(doc.fields["definitions"].fields, n)
  {
    var r := DEFS + n;
    assert "#/" + "definitions" + "/" + n == r;
    assert r[2..] == "definitions" + "/" + n;
    WalkStep(doc, "definitions", n);
    WalkLast(doc.fields["definitions"], n);
  }

  lemma ResolveV2(bundle: Value, n: string)
    requires HasV2Namespace(bundle) && Name(n)
    ensures Resolve(bundle, V2 + n) == Get(V2Defs(bundle), n)
  {
    var r := V2 + n;
    assert "#/" + "definitions" + "/" + ("v2" + "/" + n) == r;
    assert r[2..] == "definitions" + "/" + ("v2" + "/" + n);
    WalkStep(bundle, "definitions", "v2" + "/" + n);
    WalkStep(bundle.fields["definitions"], "v2", n);
    WalkLast(Defs(bundle)["v2"], n);
  }

  lemma V2RefTarget(bundle: Value, flat: Value, r: string)
    requires Flattenable(bundle) && FlatForm(bundle, flat) && IsV2Ref(r) && r[|V2|..] in V2Defs(bundle)
    ensures var target := V2Defs(bundle)[r[|V2|..]];
            && Resolve(bundle, r) == Some(target)
            && Resolve(flat, FlatRef(r)) == Some(MapRefs(target, FlatRef))
            && SafeRefs(bundle, target)
  {
    var n := r[|V2|..];
    assert r == V2 + n;
    FlatRefCases(r);
    ResolveV2(bundle, n);
    ResolveRoot(flat, n);
  }

  lemma RootRefTarget(bundle: Value, flat: Value, r: string)
    requires Flattenable(bundle) && FlatForm(bundle, flat) && IsRootRef(r) && r[|DEFS|..] in Kept(bundle)
    ensures var target := Defs(bundle)[r[|DEFS|..]];
            && Resolve(bundle, r) == Some(target)
            && Resolve(flat, FlatRef(r)) == Some(MapRefs(target, FlatRef))
            && SafeRefs(bundle, target)
  {
    var n := r[|DEFS|..];
    assert r == DEFS + n;
    FlatRefCases(r);
    ResolveRoot(bundle, n);
    ResolveRoot(flat, n);
  }

  /** A safe reference denotes a definition in the bundle, and its rewritten form denotes that definition rewritten. */
  lemma SafeRefTarget(bundle: Value, flat: Value, r: string) returns (target: Value)
    requires Flattenable(bundle) && FlatForm(bundle, flat) && SafeRef(bundle, r) && '#' in r
    ensures Resolve(bundle, r) == Some(target)
    ensures Resolve(flat, FlatRef(r)) == Some(MapRefs(target, FlatRef))
    ensures SafeRefs(bundle, target)
  {
    if IsV2Ref(r) && r[|V2|..] in V2Defs(bundle) {
      V2RefTarget(bundle, flat, r);
      target := V2Defs(bundle)[r[|V2|..]];
    } else {
      RootRefTarget(bundle, flat, r);
      target := Defs(bundle)[r[|DEFS|..]];
    }
  }

  /** Unfolding a schema of the bundle and unfolding its flat form give the same tree, at every depth. */
  lemma {:induction false} UnfoldAgrees(bundle: Value, flat: Value, v: Value, depth: nat)
    requires Flattenable(bundle) && FlatForm(bundle, flat) && SafeRefs(bundle, v)
    ensures Unfold(flat, MapRefs(v, FlatRef), depth) == Unfold(bundle, v, depth)
    decreases depth, 2, v
  {
    var w := MapRefs(v, FlatRef);
    match v
    case Obj(m) =>
      forall k | k in m
        ensures Unfold(flat, w, depth).fields[k] == Unfold(bundle, v, depth).fields[k]
      {
        if k == REF && m[k].Str? {
          UnfoldRefAgrees(bundle, flat, m[k].s, depth);
        } else {
          UnfoldAgrees(bundle, flat, m[k], depth);
        }
      }
      assert Unfold(flat, w, depth).fields == Unfold(bundle, v, depth).fields;
    case Arr(xs) =>
      forall i | 0 <= i < |xs|
        ensures Unfold(flat, w, depth).items[i] == Unfold(bundle, v, depth).items[i]
      {
        UnfoldAgrees(bundle, flat, xs[i], depth);
      }
    case _ =>
  }

  lemma {:induction false} UnfoldRefAgrees(bundle: Value, flat: Value, r: string, depth: nat)
    requires Flattenable(bundle) && FlatForm(bundle, flat) && SafeRef(bundle, r)
    ensures UnfoldRef(flat, FlatRef(r), depth) == UnfoldRef(bundle, r, depth)
    decreases depth, 1
  {
    if '#' in r {
      var target := SafeRefTarget(bundle, flat, r);
      UnfoldTargetAgrees(bundle, flat, r, FlatRef(r), target, depth);
    } else {
      FlatRefCases(r);
      ExternalRef(bundle, r);
      ExternalRef(flat, r);
    }
  }

  lemma {:induction false} UnfoldTargetAgrees(bundle: Value, flat: Value, r: string, r2: string, target: Value, depth: nat)
    requires Flattenable(bundle) && FlatForm(bundle, flat) && SafeRefs(bundle, target)
    requires Resolve(bundle, r) == Some(target) && Resolve(flat, r2) == Some(MapRefs(target, FlatRef))
    ensures UnfoldRef(flat, r2, depth) == UnfoldRef(bundle, r, depth)
    decreases depth, 0
  {
    if depth > 0 {
      UnfoldAgrees(bundle, flat, target, depth - 1);
    }
  }

  lemma ExternalRef(doc: Value, r: string)
    requires '#' !in r
    ensures Resolve(doc, r) == None
  {
    assert r != "" ==> r[0] in r;
  }

  /** Flattening keeps the meaning of every v2 definition and of every kept root definition. */
  lemma FlattenKeepsMeaning(bundle: Value, n: string, depth: nat)
    requires Flattenable(bundle) && Name(n) && n in V2Defs(bundle).Keys + Kept(bundle)
    ensures var ref := if n in V2Defs(bundle) then V2 + n else DEFS + n;
            && Resolve(bundle, ref).Some? && Resolve(FlatOf(bundle), DEFS + n).Some?
            && Unfold(FlatOf(bundle), Resolve(FlatOf(bundle), DEFS + n).value, depth)
               == Unfold(bundle, Resolve(bundle, ref).value, depth)
  {
    var flat := FlatOf(bundle);
    FlatOfForm(bundle);
    if n in V2Defs(bundle) {
      V2RefTarget(bundle, flat, V2 + n);
      FlatRefCases(V2 + n);
      UnfoldAgrees(bundle, flat, V2Defs(bundle)[n], depth);
    } else {
      RootRefTarget(bundle, flat, DEFS + n);
      FlatRefCases(DEFS + n);
      UnfoldAgrees(bundle, flat, Defs(bundle)[n], depth);
    }
  }

  /** Every reference of a document that stays in the document denotes something. */
  ghost predicate RefsResolve(doc: Value) {
    forall r :: r in RefsIn(doc) && '#' in r ==> Resolve(doc, r).Some?
  }

  lemma RefsOfFlat(bundle: Value, x: string) returns (r: string)
    requires Flattenable(bundle) && x in RefsIn(FlatOf(bundle))
    ensures SafeRef(bundle, r) && FlatRef(r) == x
  {
    var defs := Defs(bundle);
    var raw := FlatDefinitions(defs, V2Defs(bundle), Reach(RefGraph(defs), SharedRefs(defs)));
    var root := bundle.fields["title" := Str(FlatTitle(bundle.fields))]["definitions" := Obj(raw)];
    r := MappedFrom(Obj(root), FlatRef, x);
    RefsOfRest(bundle, root, r);
    if r in RefsIn(Obj(raw)) {
      RawRefsAreSafe(bundle, raw, r);
    }
  }

  lemma RawRefsAreSafe(bundle: Value, raw: map<string, Value>, r: string)
    requires Flattenable(bundle) && r in RefsIn(Obj(raw))
    requires raw == FlatDefinitions(Defs(bundle), V2Defs(bundle), Reach(RefGraph(Defs(bundle)), SharedRefs(Defs(bundle))))
    ensures SafeRef(bundle, r)
  {
    RawEntries(bundle);
    RefsOfMember(raw, r);
    var n :| n in raw && r in RefsIn(raw[n]);
    assert SafeRefs(bundle, if n in V2Defs(bundle) then V2Defs(bundle)[n] else Defs(bundle)[n]);
  }

  /** A reference of the new root stands in its definitions or was outside the definitions before. */
  lemma RefsOfRest(bundle: Value, root: map<string, Value>, r: string)
    requires bundle.Obj? && "definitions" in root && "title" in root && root["title"].Str? && r in RefsIn(Obj(root))
    requires root - {"title", "definitions"} == bundle.fields - {"title", "definitions"}
    ensures r in RefsIn(root["definitions"]) || r in RefsIn(Obj(bundle.fields - {"definitions"}))
  {
    var rest := bundle.fields - {"definitions"};
    if r in RefHere(root) {
      assert REF in (root - {"title", "definitions"});
      assert r in RefHere(rest);
    } else {
      var k :| k in root && r in RefsIn(root[k]);
      if k != "definitions" {
        assert k in (root - {"title", "definitions"});
        assert rest[k] == root[k];
      }
    }
  }

  lemma FlatRefResolves(bundle: Value, flat: Value, r: string)
    requires Flattenable(bundle) && FlatForm(bundle, flat) && SafeRef(bundle, r) && '#' in FlatRef(r)
    ensures IsRootRef(FlatRef(r)) && FlatRef(r)[|DEFS|..] in flat.fields["definitions"].fields
    ensures Resolve(flat, FlatRef(r)).Some?
  {
    FlatRefCases(r);
    var target := SafeRefTarget(bundle, flat, r);
  }

  /** The closing checks pass on a document all of whose local references name one of its definitions. */
  lemma ChecksPass(doc: Value)
    requires doc.Obj? && "definitions" in doc.fields && doc.fields["definitions"].Obj?
    requires forall x :: x in RefsIn(doc) && '#' in x ==> IsRootRef(x) && x[|DEFS|..] in doc.fields["definitions"].fields
    ensures CheckFlat(doc) == Ok(doc)
  {
    forall x | x in RefsIn(doc) && DEFS <= x
      ensures !(V2 <= x) && Before(x[|DEFS|..], '/') in doc.fields["definitions"].fields
    {
      assert x[0] == '#';
      RootRefIsNotV2(x);
      BeforeAbsent(x[|DEFS|..], '/');
    }
    assert forall x :: x in RefsIn(doc) && V2 <= x ==> DEFS <= x;
  }

  /** On a flattenable bundle the build succeeds, and every reference of its result resolves. */
  lemma FlattenSucceeds(bundle: Value)
    requires Flattenable(bundle)
    ensures CheckFlat(FlatOf(bundle)) == Ok(FlatOf(bundle))
    ensures RefsResolve(FlatOf(bundle))
  {
    var flat := FlatOf(bundle);
    FlatOfForm(bundle);
    forall x | x in RefsIn(flat) && '#' in x
      ensures Resolve(flat, x).Some?
      ensures IsRootRef(x) && x[|DEFS|..] in flat.fields["definitions"].fields
    {
      var r := RefsOfFlat(bundle, x);
      FlatRefResolves(bundle, flat, r);
    }
    ChecksPass(flat);
  }

  // ----- reference-closed bundles

  /**
   * A bundle as the exporter builds it: every local reference has one of the two forms and resolves,
   * v2 schemas refer to v2 schemas only, and no name is defined both at the root and in v2.
   */
  ghost predicate ClosedBundle(bundle: Value) {
    && HasV2Namespace(bundle)
    && V2Defs(bundle).Keys !! Defs(bundle).Keys
    && REF !in V2Defs(bundle) && REF !in Defs(bundle)
    && (forall r :: r in RefsIn(Obj(bundle.fields - {"definitions"})) ==> '#' !in r)
    && (forall n, r :: n in V2Defs(bundle) && r in RefsIn(V2Defs(bundle)[n]) && '#' in r ==>
          IsV2Ref(r) && Resolve(bundle, r).Some?)
    && (forall n, r :: n in Defs(bundle) && n != "v2" && r in RefsIn(Defs(bundle)[n]) && '#' in r ==>
          (IsV2Ref(r) || (IsRootRef(r) && r != DEFS + "v2")) && Resolve(bundle, r).Some?)
  }

  lemma ResolvedV2RefIsSafe(bundle: Value, r: string)
    requires HasV2Namespace(bundle) && IsV2Ref(r) && Resolve(bundle, r).Some?
    ensures SafeRef(bundle, r)
  {
    assert r == V2 + r[|V2|..];
    ResolveV2(bundle, r[|V2|..]);
  }

  /** Whatever a kept definition refers to at the root is kept with it. */
  lemma KeptRefIsKept(bundle: Value, n: string, r: string)
    requires HasV2Namespace(bundle) && n in Kept(bundle) && r in RefsIn(Defs(bundle)[n])
    requires IsRootRef(r) && r != DEFS + "v2" && Resolve(bundle, r).Some?
    ensures r[|DEFS|..] in Kept(bundle)
  {
    var defs, t := Defs(bundle), r[|DEFS|..];
    var g, roots := RefGraph(defs), SharedRefs(defs);
    assert r == DEFS + t;
    ResolveRoot(bundle, t);
    RootRefIsNotV2(r);
    assert t in NonV2Refs(defs[n]);
    if n in SHARED {
      assert n in SharedDefinitions(defs);
      ReachHasRoots(g, roots);
    } else {
      ReachStep(g, roots, n, t);
    }
  }

  /** Every reference-closed bundle flattens. */
  lemma ClosedBundleFlattens(bundle: Value)
    requires ClosedBundle(bundle)
    ensures Flattenable(bundle)
  {
    forall n, r | n in V2Defs(bundle) && r in RefsIn(V2Defs(bundle)[n])
      ensures SafeRef(bundle, r)
    {
      if '#' in r {
        ResolvedV2RefIsSafe(bundle, r);
      }
    }
    forall n, r | n in Kept(bundle) && r in RefsIn(Defs(bundle)[n])
      ensures SafeRef(bundle, r)
    {
      if '#' in r {
        if IsV2Ref(r) {
          ResolvedV2RefIsSafe(bundle, r);
        } else {
          KeptRefIsKept(bundle, n, r);
        }
      }
    }
    assert Kept(bundle) <= Defs(bundle).Keys;
  }

  // ----- why names may not clash

  /**
   * A kept root reference still denotes its own definition exactly when v2 has no different definition of
   * that name: the shared unions win over v2, and v2 wins over every other root definition.
   */
  lemma RootRefKeepsTarget(bundle: Value, n: string)
    requires HasV2Namespace(bundle) && Name(n) && n != REF && n in Kept(bundle)
    ensures Resolve(bundle, DEFS + n) == Some(Defs(bundle)[n])
    ensures Resolve(FlatOf(bundle), FlatRef(DEFS + n)) == Some(MapRefs(Defs(bundle)[n], FlatRef))
            <==> (n in V2Defs(bundle) && n !in SHARED ==>
                    MapRefs(V2Defs(bundle)[n], FlatRef) == MapRefs(Defs(bundle)[n], FlatRef))
  {
    var defs := Defs(bundle);
    var raw := FlatDefinitions(defs, V2Defs(bundle), Reach(RefGraph(defs), SharedRefs(defs)));
    var flat := FlatOf(bundle);
    assert flat.fields["definitions"] == MapRefs(Obj(raw), FlatRef);
    assert raw[n] == if n in V2Defs(bundle) && n !in SHARED then V2Defs(bundle)[n] else defs[n];
    FlatRefCases(DEFS + n);
    ResolveRoot(bundle, n);
    ResolveRoot(flat, n);
  }

  /** A v2 reference loses its definition exactly when a shared union of the same name and another body replaces it. */
  lemma V2RefKeepsTarget(bundle: Value, n: string)
    requires HasV2Namespace(bundle) && Name(n) && n != REF && n in V2Defs(bundle)
    ensures Resolve(bundle, V2 + n) == Some(V2Defs(bundle)[n])
    ensures Resolve(FlatOf(bundle), FlatRef(V2 + n)) == Some(MapRefs(V2Defs(bundle)[n], FlatRef))
            <==> (n in Defs(bundle) && n in SHARED ==>
                    MapRefs(Defs(bundle)[n], FlatRef) == MapRefs(V2Defs(bundle)[n], FlatRef))
  {
    var defs := Defs(bundle);
    var raw := FlatDefinitions(defs, V2Defs(bundle), Reach(RefGraph(defs), SharedRefs(defs)));
    var flat := FlatOf(bundle);
    assert flat.fields["definitions"] == MapRefs(Obj(raw), FlatRef);
    assert raw[n] == if n in defs && n in SHARED then defs[n] else V2Defs(bundle)[n];
    FlatRefCases(V2 + n);
    ResolveV2(bundle, n);
    ResolveRoot(flat, n);
  }

  // ----- what the flat bundle holds, name by name

  /** The root definitions that each root definition refers to. */
  function RootRefs(defs: map<string, Value>): Graph {
    map a | a in defs ::
      set r | r in RefsIn(defs[a]) && "#/definitions/" <= r && !("#/definitions/v2/" <= r) :: r[|"#/definitions/"|..]
  }

  lemma RootRefsAre(defs: map<string, Value>)
    ensures RootRefs(defs) == RefGraph(defs)
  {
    assert DEFS == "#/definitions/" && V2 == "#/definitions/v2/";
    forall a | a in defs
      ensures RootRefs(defs)[a] == RefGraph(defs)[a]
    {
    }
  }

  lemma LaterPath(g: Graph, p: seq<string>)
    requires IsPath(g, p) && |p| > 1
    ensures IsPath(g, p[1..]) && Edge(g, p[0], p[1])
  {
    forall i | 0 < i < |p[1..]|
      ensures Edge(g, p[1..][i - 1], p[1..][i])
    {
      assert Edge(g, p[i], p[i + 1]);
    }
  }

  lemma LongerPath(g: Graph, a: string, p: seq<string>)
    requires IsPath(g, p) && Edge(g, a, p[0])
    ensures IsPath(g, [a] + p)
  {
    var q := [a] + p;
    forall i | 0 < i < |q|
      ensures Edge(g, q[i - 1], q[i])
    {
      if i > 1 {
        assert Edge(g, p[i - 2], p[i - 1]);
      }
    }
  }

  ghost predicate Follow(g: Graph, roots: set<string>, next: set<string>) {
    forall x :: x in next <==> exists a :: a in roots && Edge(g, a, x)
  }

  lemma PathFromNext(g: Graph, roots: set<string>, next: set<string>, n: string)
    requires Follow(g, roots, next) && PathTo(g, roots, n) && n !in roots
    ensures PathTo(g, next, n)
  {
    var p :| IsPath(g, p) && p[0] in roots && p[|p| - 1] == n;
    LaterPath(g, p);
    var q := p[1..];
    assert q[0] in next && q[|q| - 1] == n;
  }

  lemma PathFromRoots(g: Graph, roots: set<string>, next: set<string>, n: string)
    requires Follow(g, roots, next) && PathTo(g, next, n)
    ensures PathTo(g, roots, n)
  {
    var p :| IsPath(g, p) && p[0] in next && p[|p| - 1] == n;
    var a :| a in roots && Edge(g, a, p[0]);
    LongerPath(g, a, p);
    var q := [a] + p;
    assert q[0] in roots && q[|q| - 1] == n;
  }

  lemma SharedRefsFollow(defs: map<string, Value>)
    ensures Follow(RefGraph(defs), SHARED, SharedRefs(defs))
  {
    var g := RefGraph(defs);
    forall x
      ensures x in SharedRefs(defs) <==> exists a :: a in SHARED && Edge(g, a, x)
    {
      if a :| a in SHARED && Edge(g, a, x) {
        assert a in SharedDefinitions(defs) && x in NonV2Refs(defs[a]);
      }
      if x in SharedRefs(defs) {
        var a :| a in SharedDefinitions(defs) && x in NonV2Refs(defs[a]);
        assert Edge(g, a, x);
      }
    }
  }

  /** What a union leads to is the union or what its references lead to. */
  lemma PathFromUnion(g: Graph, next: set<string>, n: string)
    requires Follow(g, SHARED, next)
    ensures PathTo(g, SHARED, n) <==> n in SHARED || PathTo(g, next, n)
  {
    if n in SHARED {
      assert IsPath(g, [n]);
    } else if PathTo(g, SHARED, n) {
      PathFromNext(g, SHARED, next, n);
    }
    if PathTo(g, next, n) {
      PathFromRoots(g, SHARED, next, n);
    }
  }

  lemma KeptByPath(bundle: Value, n: string)
    requires HasV2Namespace(bundle)
    ensures n in Kept(bundle) <==> n in Defs(bundle) && n != "v2" && PathTo(RootRefs(Defs(bundle)), {"ClientRequest", "ServerNotification"}, n)
  {
    var defs := Defs(bundle);
    RootRefsAre(defs);
    assert SHARED == {"ClientRequest", "ServerNotification"};
    SharedRefsFollow(defs);
    PathFromUnion(RefGraph(defs), SharedRefs(defs), n);
    if PathTo(RefGraph(defs), SharedRefs(defs), n) {
      ReachIsInUniverse(RefGraph(defs), SharedRefs(defs), n);
    }
  }

  /** The definition that the flat bundle has under a name, before its references are rewritten. */
  ghost function FlatEntry(bundle: Value, n: string): Option<Value>
    requires HasV2Namespace(bundle)
  {
    if n in {"ClientRequest", "ServerNotification"} && n in Defs(bundle) then Some(Defs(bundle)[n])
    else if n in V2Defs(bundle) then Some(V2Defs(bundle)[n])
    else if n in Defs(bundle) && n != "v2" && PathTo(RootRefs(Defs(bundle)), {"ClientRequest", "ServerNotification"}, n) then Some(Defs(bundle)[n])
    else None
  }

  lemma FlatRaw(bundle: Value, raw: map<string, Value>, n: string)
    requires HasV2Namespace(bundle)
    requires raw == FlatDefinitions(Defs(bundle), V2Defs(bundle), Reach(RefGraph(Defs(bundle)), SharedRefs(Defs(bundle))))
    requires n in Kept(bundle) <==> n in Defs(bundle) && n != "v2" && PathTo(RootRefs(Defs(bundle)), {"ClientRequest", "ServerNotification"}, n)
    ensures Get(raw, n) == FlatEntry(bundle, n)
  {
    assert n in SHARED <==> n in {"ClientRequest", "ServerNotification"};
  }

  /**
   * For every bundle with a v2 namespace: the flat bundle holds a name exactly if it names one of the two shared unions,
   * a v2 definition, or a root definition that a path of root references leads to from one of the unions; and with
   * that definition, references rewritten, the unions before v2 and v2 before the others.
   */
  lemma FlatHolds(bundle: Value, n: string)
    requires HasV2Namespace(bundle)
    ensures FlatOf(bundle).Obj? && "definitions" in FlatOf(bundle).fields && FlatOf(bundle).fields["definitions"].Obj?
    ensures var flat := FlatOf(bundle).fields["definitions"].fields;
            && (n in flat <==> FlatEntry(bundle, n).Some?)
            && (n in flat && n != "$ref" ==> flat[n] == MapRefs(FlatEntry(bundle, n).value, FlatRef))
  {
    var defs := Defs(bundle);
    var raw := FlatDefinitions(defs, V2Defs(bundle), Reach(RefGraph(defs), SharedRefs(defs)));
    assert FlatOf(bundle).fields["definitions"] == MapRefs(Obj(raw), FlatRef);
    KeptByPath(bundle, n);
    FlatRaw(bundle, raw, n);
  }

  /**
   * Of the root names outside v2, exactly those that a path of root references leads to from one of the two unions,
   * these included, are in the flat bundle.
   */
  lemma FlatKeepsIff(bundle: Value, n: string)
    requires HasV2Namespace(bundle) && n in Defs(bundle) && n != "v2" && n !in V2Defs(bundle)
    ensures FlatHasDefinition(bundle, n) <==> PathTo(RootRefs(Defs(bundle)), {"ClientRequest", "ServerNotification"}, n)
    ensures n in {"ClientRequest", "ServerNotification"} ==> FlatHasDefinition(bundle, n)
  {
    FlatHolds(bundle, n);
    if n in {"ClientRequest", "ServerNotification"} {
      assert IsPath(RootRefs(Defs(bundle)), [n]);
    }
  }

  ghost predicate FlatHasDefinition(bundle: Value, n: string)
    requires HasV2Namespace(bundle)
  {
    && FlatOf(bundle).Obj? && "definitions" in FlatOf(bundle).fields
    && FlatOf(bundle).fields["definitions"].Obj? && n in FlatOf(bundle).fields["definitions"].fields
  }

  /** Outside the definitions only the title changes: it says that this is the flat bundle. */
  lemma FlatHeader(bundle: Value, k: string)
    requires HasV2Namespace(bundle) && k != "definitions" && k != "$ref"
    ensures k != "title" ==> Get(FlatOf(bundle).fields, k).Some? == (k in bundle.fields)
    ensures k != "title" && k in bundle.fields ==> Get(FlatOf(bundle).fields, k) == Some(MapRefs(bundle.fields[k], FlatRef))
    ensures "title" in bundle.fields && bundle.fields["title"].Str? ==>
              Get(FlatOf(bundle).fields, "title") == Some(Str(bundle.fields["title"].s + "V2"))
    ensures Get(bundle.fields, "title") == None ==> Get(FlatOf(bundle).fields, "title") == Some(Str("CodexAppServerProtocolV2"))
  {
    var title := FlatTitle(bundle.fields);
    var raw := FlatDefinitions(Defs(bundle), V2Defs(bundle), Reach(RefGraph(Defs(bundle)), SharedRefs(Defs(bundle))));
    var root := bundle.fields["title" := Str(title)]["definitions" := Obj(raw)];
    assert |"title"| == 5 && |"definitions"| == 11 && |REF| == 4;
    assert FlatOf(bundle) == MapRefs(Obj(root), FlatRef);
    assert root["title"] == Str(title) && MapRefs(Str(title), FlatRef) == Str(title);
    assert "title" in FlatOf(bundle).fields && FlatOf(bundle).fields["title"] == MapRefs(root["title"], FlatRef);
    assert "title" !in bundle.fields ==> title == "CodexAppServerProtocolV2";
  }

  // ----- bundles in which a name means two things

  function BundleOf(defs: map<string, Value>): Value {
    Obj(map["definitions" := Obj(defs)])
  }

  /** The helper `n` of a shared union, next to another `n` in v2. */
  function HelperClash(n: string): map<string, Value> {
    map["ClientRequest" := Obj(map[REF := Str(DEFS + n)]), n := Obj(map[]), "v2" := Obj(map[n := Null])]
  }

  /** A shared union `n`, next to another `n` in v2. */
  function UnionClash(n: string): map<string, Value> {
    map[n := Obj(map[]), "v2" := Obj(map[n := Null])]
  }

  lemma HelperIsKept(n: string)
    requires Name(n) && n !in SHARED && n != "v2"
    ensures n in Kept(BundleOf(HelperClash(n)))
  {
    var defs, request := HelperClash(n), Obj(map[REF := Str(DEFS + n)]);
    assert RefHere(request.fields) == {DEFS + n};
    assert (DEFS + n)[|DEFS|..] == n;
    RootRefIsNotV2(DEFS + n);
    assert n in NonV2Refs(request);
    assert "ClientRequest" in SharedDefinitions(defs) && defs["ClientRequest"] == request;
    assert n in SharedRefs(defs);
    ReachHasRoots(RefGraph(defs), SharedRefs(defs));
  }

  /** A v2 definition takes the place of a root helper of the same name. */
  lemma HelperIsReplaced(n: string)
    requires Name(n) && n !in SHARED && n != "v2" && n != REF
    ensures var bundle := BundleOf(HelperClash(n));
            && Resolve(bundle, DEFS + n) == Some(Obj(map[]))
            && Resolve(FlatOf(bundle), FlatRef(DEFS + n)) != Some(Obj(map[]))
  {
    var bundle := BundleOf(HelperClash(n));
    HelperIsKept(n);
    assert MapRefs(Obj(map[]), FlatRef) == Obj(map[]);
    assert V2Defs(bundle) == map[n := Null] && Defs(bundle)[n] == Obj(map[]);
    RootRefKeepsTarget(bundle, n);
  }

  /** A shared union takes the place of a v2 definition of the same name. */
  lemma V2DefinitionIsReplaced(n: string)
    requires n in SHARED
    ensures var bundle := BundleOf(UnionClash(n));
            && Resolve(bundle, V2 + n) == Some(Null)
            && Resolve(FlatOf(bundle), FlatRef(V2 + n)) != Some(Null)
  {
    var bundle := BundleOf(UnionClash(n));
    assert V2Defs(bundle) == map[n := Null] && Defs(bundle)[n] == Obj(map[]);
    assert MapRefs(Null, FlatRef) == Null;
    V2RefKeepsTarget(bundle, n);
  }
}
