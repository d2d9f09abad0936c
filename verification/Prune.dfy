/** Removing the variants of experimental methods from every array of a schema. */
module Prune {
  import opened Wrappers
  import opened Json
  import opened Seqs

  /** The `properties.method` object of a variant. */
  function MethodSchema(v: Value): Option<map<string, Value>> {
    match Field(v, "properties")
    case Some(Obj(properties)) =>
      (match Field(Obj(properties), "method")
       case Some(Obj(schema)) => Some(schema)
       case _ => None)
    case _ => None
  }

  /** Whether a method schema, taken alone, pins one of the methods. */
  predicate Pins(schema: map<string, Value>, methods: set<string>) {
    match Field(Obj(schema), "const")
    case Some(Str(name)) => name in methods
    case _ =>
      match Field(Obj(schema), "enum")
      case Some(Arr(xs)) => |xs| == 1 && xs[0].Str? && xs[0].s in methods
      case _ => false
  }

  /** `is_experimental_method_variant`. */
  predicate IsVariant(v: Value, methods: set<string>) {
    MethodSchema(v).Some? && Pins(MethodSchema(v).value, methods)
  }

  /** A variant whose method can only be `name`: by `const`, or without one by an `enum` of this one entry. */
  predicate OnlyMethod(v: Value, name: string) {
    && v.Obj? && "properties" in v.fields && v.fields["properties"].Obj?
    && "method" in v.fields["properties"].fields && v.fields["properties"].fields["method"].Obj?
    && var schema := v.fields["properties"].fields["method"].fields;
       if "const" in schema && schema["const"].Str? then schema["const"] == Str(name)
       else "enum" in schema && schema["enum"] == Arr([Str(name)])
  }

  /** The pass judges a value by the one method that it can have. */
  lemma VariantIff(v: Value, methods: set<string>)
    ensures IsVariant(v, methods) <==> exists name :: name in methods && OnlyMethod(v, name)
  {
    if IsVariant(v, methods) {
      var schema := v.fields["properties"].fields["method"].fields;
      if "const" in schema && schema["const"].Str? {
        assert OnlyMethod(v, schema["const"].s);
      } else {
        var xs := schema["enum"].items;
        assert xs == [Str(xs[0].s)];
        assert OnlyMethod(v, xs[0].s);
      }
    }
  }

  /** The elements of an array that the pass keeps. */
  function Survivors(xs: seq<Value>, methods: set<string>): seq<Value> {
    Filter(xs, x => !IsVariant(x, methods))
  }

  /** `prune_experimental_methods_inner`. */
  function PruneMethods(v: Value, methods: set<string>): (w: Value)
    ensures v.Str? || w.Str? ==> v == w
    ensures v.Obj? == w.Obj? && v.Arr? == w.Arr?
    ensures v.Obj? ==> w.fields.Keys == v.fields.Keys
  {
    match v
    case Arr(xs) =>
      var ys := Survivors(xs, methods);
      Arr(seq(|ys|, i requires 0 <= i < |ys| => assert ys[i] in xs; PruneMethods(ys[i], methods)))
    case Obj(m) => Obj(map k | k in m :: PruneMethods(m[k], methods))
    case _ => v
  }

  lemma SurvivorsConcat(xs: seq<Value>, ys: seq<Value>, methods: set<string>)
    ensures Survivors(xs + ys, methods) == Survivors(xs, methods) + Survivors(ys, methods)
  {
    FilterAppend(xs, ys, x => !IsVariant(x, methods));
  }

  /** Every element that is no variant is kept, pruned, behind exactly those kept from before it; nothing else is. */
  lemma PruneKeepsTheRest(xs: seq<Value>, methods: set<string>, j: nat)
    requires j < |xs| && !IsVariant(xs[j], methods)
    ensures |PruneMethods(Arr(xs), methods).items| ==
            |Survivors(xs[..j], methods)| + 1 + |Survivors(xs[j + 1..], methods)|
    ensures PruneMethods(Arr(xs), methods).items[|Survivors(xs[..j], methods)|] == PruneMethods(xs[j], methods)
  {
    assert xs == xs[..j] + ([xs[j]] + xs[j + 1..]);
    SurvivorsConcat(xs[..j], [xs[j]] + xs[j + 1..], methods);
    SurvivorsConcat([xs[j]], xs[j + 1..], methods);
    assert Survivors([xs[j]], methods) == [xs[j]];
  }

  /** No array, at any depth, holds a variant of one of the methods. */
  predicate NoVariants(v: Value, methods: set<string>) {
    match v
    case Arr(xs) => forall x :: x in xs ==> !IsVariant(x, methods) && NoVariants(x, methods)
    case Obj(m) => forall k :: k in m ==> NoVariants(m[k], methods)
    case _ => true
  }

  /** Whether a method schema will pin one of the methods once its `enum` has been pruned. */
  predicate PinsLater(schema: map<string, Value>, methods: set<string>) {
    && !(match Field(Obj(schema), "const") case Some(Str(_)) => true case _ => false)
    && match Field(Obj(schema), "enum")
       case Some(Arr(xs)) =>
         var ys := Survivors(xs, methods);
         |xs| != 1 && |ys| == 1 && ys[0].Str? && ys[0].s in methods
       case _ => false
  }

  /**
   * A variant in disguise: its `enum` lists one of the methods among elements that are themselves variants,
   * so that pruning the `enum` turns it into a variant after it has been judged.
   */
  predicate Disguised(v: Value, methods: set<string>) {
    MethodSchema(v).Some? && PinsLater(MethodSchema(v).value, methods)
  }

  lemma MethodSchemaPruned(v: Value, methods: set<string>)
    ensures MethodSchema(PruneMethods(v, methods)) ==
              match MethodSchema(v)
              case None => None
              case Some(schema) => Some(PruneMethods(Obj(schema), methods).fields)
  {
  }

  lemma PinsAfterPruning(schema: map<string, Value>, methods: set<string>)
    ensures Pins(PruneMethods(Obj(schema), methods).fields, methods) <==> Pins(schema, methods) || PinsLater(schema, methods)
  {
  }

  /** Pruning a value makes it a variant exactly if it was one, openly or in disguise. */
  lemma VariantAfterPruning(v: Value, methods: set<string>)
    ensures IsVariant(PruneMethods(v, methods), methods) <==> IsVariant(v, methods) || Disguised(v, methods)
  {
    MethodSchemaPruned(v, methods);
    if MethodSchema(v).Some? {
      PinsAfterPruning(MethodSchema(v).value, methods);
    }
  }

  /** No array element that the pass keeps, at any depth, is a variant in disguise. */
  predicate NoneDisguised(v: Value, methods: set<string>) {
    match v
    case Arr(xs) => forall x :: x in xs && !IsVariant(x, methods) ==> !Disguised(x, methods) && NoneDisguised(x, methods)
    case Obj(m) => forall k :: k in m ==> NoneDisguised(m[k], methods)
    case _ => true
  }

  /** The pass is complete exactly on values without a disguised variant. */
  lemma {:induction false} PruneIsCompleteIff(v: Value, methods: set<string>)
    ensures NoVariants(PruneMethods(v, methods), methods) <==> NoneDisguised(v, methods)
  {
    var w := PruneMethods(v, methods);
    match v
    case Arr(xs) =>
      var ys := Survivors(xs, methods);
      forall i | 0 <= i < |ys|
        ensures w.items[i] == PruneMethods(ys[i], methods)
        ensures NoVariants(w.items[i], methods) <==> NoneDisguised(ys[i], methods)
        ensures IsVariant(w.items[i], methods) <==> Disguised(ys[i], methods)
      {
        assert ys[i] in ys && ys[i] in xs;
        PruneIsCompleteIff(ys[i], methods);
        VariantAfterPruning(ys[i], methods);
      }
      CompleteElementwise(w.items, xs, methods);
    case Obj(m) =>
      forall k | k in m
        ensures NoVariants(w.fields[k], methods) <==> NoneDisguised(m[k], methods)
      {
        PruneIsCompleteIff(m[k], methods);
      }
    case _ =>
  }

  lemma CompleteElementwise(zs: seq<Value>, xs: seq<Value>, methods: set<string>)
    requires var ys := Survivors(xs, methods);
             && |zs| == |ys|
             && forall i :: 0 <= i < |ys| ==>
                  && (NoVariants(zs[i], methods) <==> NoneDisguised(ys[i], methods))
                  && (IsVariant(zs[i], methods) <==> Disguised(ys[i], methods))
    ensures NoVariants(Arr(zs), methods) <==> NoneDisguised(Arr(xs), methods)
  {
    var ys := Survivors(xs, methods);
    if NoVariants(Arr(zs), methods) {
      forall x | x in xs && !IsVariant(x, methods)
        ensures !Disguised(x, methods) && NoneDisguised(x, methods)
      {
        assert x in ys;
        var i :| 0 <= i < |ys| && ys[i] == x;
        assert zs[i] in zs;
      }
    }
    if NoneDisguised(Arr(xs), methods) {
      forall z | z in zs
        ensures !IsVariant(z, methods) && NoVariants(z, methods)
      {
        var i :| 0 <= i < |zs| && zs[i] == z;
        assert ys[i] in ys && ys[i] in xs;
      }
    }
  }

  /** The values a pass leaves alone are exactly those without variants. */
  lemma {:induction false} PruneFixedIff(v: Value, methods: set<string>)
    ensures PruneMethods(v, methods) == v <==> NoVariants(v, methods)
  {
    var w := PruneMethods(v, methods);
    match v
    case Arr(xs) =>
      FilterAll(xs, x => !IsVariant(x, methods));
      if forall x :: x in xs ==> !IsVariant(x, methods) {
        forall i | 0 <= i < |xs|
          ensures w.items[i] == xs[i] <==> NoVariants(xs[i], methods)
        {
          PruneFixedIff(xs[i], methods);
        }
        assert (forall x :: x in xs ==> NoVariants(x, methods)) <==> (forall i :: 0 <= i < |xs| ==> NoVariants(xs[i], methods));
      }
    case Obj(m) =>
      forall k | k in m
        ensures w.fields[k] == m[k] <==> NoVariants(m[k], methods)
      {
        PruneFixedIff(m[k], methods);
      }
      assert w == v <==> forall k :: k in m ==> w.fields[k] == m[k];
    case _ =>
  }

  /** A second pass changes nothing exactly on values without a disguised variant. */
  lemma PruneIsIdempotentIff(v: Value, methods: set<string>)
    ensures PruneMethods(PruneMethods(v, methods), methods) == PruneMethods(v, methods) <==> NoneDisguised(v, methods)
  {
    PruneIsCompleteIff(v, methods);
    PruneFixedIff(PruneMethods(v, methods), methods);
  }

  /** Every `enum` of a method schema lists scalars only. */
  predicate ScalarEnums(v: Value) {
    && (match MethodSchema(v)
        case Some(schema) => "enum" in schema && schema["enum"].Arr? ==>
                               forall x :: x in schema["enum"].items ==> !x.Obj?
        case None => true)
    && match v
       case Arr(xs) => forall x :: x in xs ==> ScalarEnums(x)
       case Obj(m) => forall k :: k in m ==> ScalarEnums(m[k])
       case _ => true
  }

  /** With scalar enums there is no disguise, so one pass is complete and a second one changes nothing. */
  lemma {:induction false} ScalarEnumsHideNothing(v: Value, methods: set<string>)
    requires ScalarEnums(v)
    ensures NoneDisguised(v, methods) && !Disguised(v, methods)
  {
    if MethodSchema(v).Some? {
      var schema := MethodSchema(v).value;
      if "enum" in schema && schema["enum"].Arr? {
        FilterAll(schema["enum"].items, x => !IsVariant(x, methods));
      }
    }
    match v
    case Arr(xs) =>
      forall x | x in xs
        ensures NoneDisguised(x, methods) && !Disguised(x, methods)
      {
        ScalarEnumsHideNothing(x, methods);
      }
    case Obj(m) =>
      forall k | k in m
        ensures NoneDisguised(m[k], methods)
      {
        ScalarEnumsHideNothing(m[k], methods);
      }
    case _ =>
  }

  // ----- a value that pruning makes a variant

  function Pinned(schema: map<string, Value>): Value {
    Obj(map["properties" := Obj(map["method" := Obj(schema)])])
  }

  const CONST_VARIANT := Pinned(map["const" := Str("m")])
  const ENUM_VARIANT := Pinned(map["enum" := Arr([Str("m")])])
  const DISGUISED := Pinned(map["enum" := Arr([Str("m"), CONST_VARIANT])])

  lemma OneSurvivor(v: Value, w: Value, methods: set<string>)
    requires !IsVariant(v, methods) && IsVariant(w, methods)
    ensures Survivors([v, w], methods) == [v]
  {
    assert [v, w] == [v] + [w];
    SurvivorsConcat([v], [w], methods);
    assert Survivors([v], methods) == [v] && Survivors([w], methods) == [];
  }

  lemma DisguisedIsPruned()
    ensures PruneMethods(DISGUISED, {"m"}) == ENUM_VARIANT
  {
    var enums := [Str("m"), CONST_VARIANT];
    OneSurvivor(Str("m"), CONST_VARIANT, {"m"});
    assert PruneMethods(Arr(enums), {"m"}) == Arr([Str("m")]);
    var schema := map["enum" := Arr(enums)];
    assert PruneMethods(Obj(schema), {"m"}) == Obj(map["enum" := Arr([Str("m")])]);
    assert PruneMethods(Obj(map["method" := Obj(schema)]), {"m"}) == Obj(map["method" := Obj(map["enum" := Arr([Str("m")])])]);
  }

  /** Pruning an `enum` can make its owner a variant, which only a second pass removes. */
  lemma DisguisedVariantSurvives()
    ensures !NoVariants(PruneMethods(Arr([DISGUISED]), {"m"}), {"m"})
    ensures PruneMethods(PruneMethods(Arr([DISGUISED]), {"m"}), {"m"}) != PruneMethods(Arr([DISGUISED]), {"m"})
  {
    DisguisedIsPruned();
    assert !IsVariant(DISGUISED, {"m"}) && IsVariant(ENUM_VARIANT, {"m"});
    assert Survivors([DISGUISED], {"m"}) == [DISGUISED];
    assert PruneMethods(Arr([DISGUISED]), {"m"}) == Arr([ENUM_VARIANT]);
    assert ENUM_VARIANT in [ENUM_VARIANT];
    PruneFixedIff(Arr([ENUM_VARIANT]), {"m"});
  }
}
