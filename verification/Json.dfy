/** JSON values as `serde_json` holds them, and the `$ref` strings inside them. */
module Json {
  import opened Wrappers
  import opened Text

  /** Objects are maps: the source never depends on the order of an object's keys. */
  datatype Value =
    | Null
    | Bool(b: bool)
    | Num(n: int)
    | Str(s: string)
    | Arr(items: seq<Value>)
    | Obj(fields: map<string, Value>)

  const REF := "$ref"

  /** Where the references of a schema to its own definitions begin. */
  const DEFS := "#/definitions/"

  /** `Value::get` with a string key: absent on anything but an object. */
  function Field(v: Value, key: string): Option<Value> {
    if v.Obj? then Get(v.fields, key) else None
  }

  /** The members of an object that carry one of the names. */
  function Restrict(m: map<string, Value>, names: set<string>): map<string, Value> {
    map n | n in m && n in names :: m[n]
  }

  /** The value of a string-valued `$ref` key, as a set of at most one string. */
  function RefHere(m: map<string, Value>): set<string> {
    if REF in m && m[REF].Str? then {m[REF].s} else {}
  }

  /** Every string held under a `$ref` key, at any depth. */
  function RefsIn(v: Value): set<string> {
    match v
    case Obj(m) => RefHere(m) + set k, r | k in m && r in RefsIn(m[k]) :: r
    case Arr(xs) => set i, r | 0 <= i < |xs| && r in RefsIn(xs[i]) :: r
    case _ => {}
  }

  /**
   * Applies `f` to every string held under a `$ref` key. All four rewriting passes of
   * the exporter have this shape and differ in `f` only.
   */
  function MapRefs(v: Value, f: string -> string): (w: Value)
    ensures v.Str? == w.Str? && v.Obj? == w.Obj? && v.Arr? == w.Arr?
    ensures v.Obj? ==> w.fields.Keys == v.fields.Keys
    ensures v.Arr? ==> |w.items| == |v.items|
  {
    match v
    case Obj(m) =>
      Obj(map k | k in m :: if k == REF && m[k].Str? then Str(f(m[k].s)) else MapRefs(m[k], f))
    case Arr(xs) => Arr(seq(|xs|, i requires 0 <= i < |xs| => MapRefs(xs[i], f)))
    case _ => v
  }

  lemma {:induction false} MappedFrom(v: Value, f: string -> string, x: string) returns (r: string)
    requires x in RefsIn(MapRefs(v, f))
    ensures r in RefsIn(v) && f(r) == x
  {
    match v
    case Obj(m) =>
      var w := MapRefs(v, f).fields;
      if x in RefHere(w) {
        r := m[REF].s;
      } else {
        var k :| k in w && x in RefsIn(w[k]);
        r := MappedFrom(m[k], f, x);
      }
    case Arr(xs) =>
      var ys := MapRefs(v, f).items;
      var i :| 0 <= i < |ys| && x in RefsIn(ys[i]);
      r := MappedFrom(xs[i], f, x);
  }

  lemma {:induction false} MappedTo(v: Value, f: string -> string, r: string)
    requires r in RefsIn(v)
    ensures f(r) in RefsIn(MapRefs(v, f))
  {
    match v
    case Obj(m) =>
      var w := MapRefs(v, f).fields;
      if r in RefHere(m) {
        assert w[REF] == Str(f(r)) && f(r) in RefHere(w);
      } else {
        var k :| k in m && r in RefsIn(m[k]);
        MappedTo(m[k], f, r);
        assert w[k] == MapRefs(m[k], f);
      }
    case Arr(xs) =>
      var i :| 0 <= i < |xs| && r in RefsIn(xs[i]);
      MappedTo(xs[i], f, r);
      assert MapRefs(v, f).items[i] == MapRefs(xs[i], f);
  }

  lemma {:induction false} MapRefsIdentity(v: Value, f: string -> string)
    requires forall r :: r in RefsIn(v) ==> f(r) == r
    ensures MapRefs(v, f) == v
  {
    match v
    case Obj(m) =>
      forall k | k in m
        ensures MapRefs(v, f).fields[k] == m[k]
      {
        MapRefsIdentity(m[k], f);
      }
    case Arr(xs) =>
      forall i | 0 <= i < |xs|
        ensures MapRefs(v, f).items[i] == xs[i]
      {
        MapRefsIdentity(xs[i], f);
      }
    case _ =>
  }

  /** The references of an object's members, when no member is itself a `$ref` string. */
  lemma RefsOfMember(m: map<string, Value>, r: string)
    requires REF !in m
    ensures r in RefsIn(Obj(m)) <==> exists k :: k in m && r in RefsIn(m[k])
  {
  }

  // ----- local references: section 8.3 of the JSON Schema core specification, draft-07

  predicate AllDigits(s: string) {
    forall i :: 0 <= i < |s| ==> '0' <= s[i] <= '9'
  }

  function Decimal(s: string): nat
    requires AllDigits(s)
  {
    if s == "" then 0 else 10 * Decimal(s[..|s| - 1]) + (s[|s| - 1] - '0') as nat
  }

  /** A segment of a path that counts the elements of an array: section 4 of RFC 6901. */
  function Index(key: string): Option<nat> {
    if key != "" && AllDigits(key) && (key[0] == '0' ==> |key| == 1) then Some(Decimal(key)) else None
  }

  /** The member or element of `v` that one segment of a path names. */
  function Child(v: Value, key: string): Option<Value> {
    match v
    case Obj(m) => Get(m, key)
    case Arr(xs) =>
      var i := Index(key);
      if i.Some? && i.value < |xs| then Some(xs[i.value]) else None
    case _ => None
  }

  /** Follows a slash-separated path. */
  function Walk(doc: Value, path: string): (r: Option<Value>)
    decreases |path|
  {
    var (key, rest) := SplitOnce(path, '/');
    match Child(doc, key)
    case None => None
    case Some(child) => if rest.None? then Some(child) else Walk(child, rest.value)
  }

  /** What a reference into the same document denotes; absent when it dangles or leaves the document. */
  function Resolve(doc: Value, ref: string): Option<Value> {
    if "#/" <= ref then Walk(doc, ref[2..]) else None
  }

  lemma WalkStep(doc: Value, key: string, rest: string)
    requires '/' !in key
    ensures Child(doc, key).Some? ==> Walk(doc, key + "/" + rest) == Walk(Child(doc, key).value, rest)
    ensures Child(doc, key).None? ==> Walk(doc, key + "/" + rest) == None
  {
    BeforeJoined(key, '/', rest);
  }

  lemma WalkLast(doc: Value, key: string)
    requires '/' !in key
    ensures Walk(doc, key) == Child(doc, key)
  {
    BeforeAbsent(key, '/');
  }

  lemma ChildOfMapped(v: Value, f: string -> string, key: string)
    ensures Child(MapRefs(v, f), key).Some? == Child(v, key).Some?
    ensures Child(v, key).Some? ==>
              || Child(MapRefs(v, f), key).value == MapRefs(Child(v, key).value, f)
              || (Child(MapRefs(v, f), key).value.Str? && Child(v, key).value.Str?)
  {
  }

  /** Rewriting references moves nothing. */
  lemma {:induction false} WalkOfMapped(v: Value, f: string -> string, path: string)
    ensures Walk(MapRefs(v, f), path).Some? == Walk(v, path).Some?
    decreases |path|
  {
    var (key, rest) := SplitOnce(path, '/');
    ChildOfMapped(v, f, key);
    if rest.Some? && Child(v, key).Some? {
      WalkOfMapped(Child(v, key).value, f, rest.value);
    }
  }

  /**
   * Replaces every local reference by the definition it denotes, `depth` levels deep.
   * A reference met at depth zero becomes `Null`; one that does not resolve is kept.
   */
  ghost function Unfold(doc: Value, v: Value, depth: nat): Value
    decreases depth, 1, v
  {
    match v
    case Obj(m) =>
      Obj(map k | k in m :: if k == REF && m[k].Str? then UnfoldRef(doc, m[k].s, depth) else Unfold(doc, m[k], depth))
    case Arr(xs) => Arr(seq(|xs|, i requires 0 <= i < |xs| => Unfold(doc, xs[i], depth)))
    case _ => v
  }

  ghost function UnfoldRef(doc: Value, ref: string, depth: nat): Value
    decreases depth, 0
  {
    match Resolve(doc, ref)
    case None => Str(ref)
    case Some(target) => if depth == 0 then Null else Unfold(doc, target, depth - 1)
  }
}
