/**
  JavaScript values as the GeoJSON tools see them, and the few JavaScript and
  Underscore.js read operations that the validator and the converters apply to
  them: truthiness, property access, `.length`, indexing, `_.last` and the
  element sequence that `_.find` and `_.each` walk.
 */
module Js {

  /**
    A JavaScript value built from literals: numbers are finite reals or NaN
    (which `parseFloat` yields for text that does not start with a number);
    -0 and the infinities are not modelled.
   */
  datatype Json =
    | JNull
    | JBool(b: bool)
    | JNum(n: real)
    | JNaN
    | JStr(s: string)
    | JArr(items: seq<Json>)
    | JObj(fields: map<string, Json>)

  datatype Option<+T> = None | Some(value: T)

  /** JavaScript truthiness: `false`, `0`, NaN, `""` and `null` are falsy. */
  predicate Truthy(v: Json) {
    match v
    case JNull => false
    case JBool(b) => b
    case JNum(n) => n != 0.0
    case JNaN => false
    case JStr(s) => s != ""
    case _ => true
  }

  /** Truthiness of a property read, where `None` is `undefined`. */
  predicate Present(o: Option<Json>) {
    o.Some? && Truthy(o.value)
  }

  /** `v.key`: an own property of an object; `undefined` on every other value. */
  function Get(v: Json, key: string): (r: Option<Json>)
    ensures r.Some? <==> v.JObj? && key in v.fields
    ensures r.Some? ==> r.value == v.fields[key]
  {
    if v.JObj? && key in v.fields then Some(v.fields[key]) else None
  }

  /** `v.length`: defined on arrays and strings, `undefined` on numbers and booleans. */
  function Length(v: Json): (r: Option<nat>)
    ensures r.Some? <==> v.JArr? || v.JStr?
  {
    match v
    case JArr(items) => Some(|items|)
    case JStr(s) => Some(|s|)
    case _ => None
  }

  /** `v.length < n`: a comparison with `undefined` is false. */
  predicate ShorterThan(v: Json, n: nat) {
    var len := Length(v);
    len.Some? && len.value < n
  }

  /** `v[i]`: an element of an array, a one-character string of a string, else `undefined`. */
  function At(v: Json, i: nat): (r: Option<Json>)
    ensures r.Some? ==> (v.JArr? && i < |v.items| && r.value == v.items[i])
                        || (v.JStr? && i < |v.s| && r.value == JStr([v.s[i]]))
  {
    match v
    case JArr(items) => if i < |items| then Some(items[i]) else None
    case JStr(s) => if i < |s| then Some(JStr([s[i]])) else None
    case _ => None
  }

  /** `_.last(v)`: the final element of a non-empty array or string, else `undefined`. */
  function Last(v: Json): (r: Option<Json>)
    ensures r.Some? <==> Length(v).Some? && Length(v).value > 0
    ensures r.Some? ==> r == At(v, Length(v).value - 1)
  {
    match v
    case JArr(items) => if |items| > 0 then Some(items[|items| - 1]) else None
    case JStr(s) => if |s| > 0 then Some(JStr([s[|s| - 1]])) else None
    case _ => None
  }

  /** The elements `_.find` visits: those of an array, the characters of a string, none otherwise. */
  function Elements(v: Json): (r: seq<Json>)
    ensures Length(v).Some? ==> |r| == Length(v).value
    ensures !v.JArr? && !v.JStr? ==> r == []
  {
    match v
    case JArr(items) => items
    case JStr(s) => seq(|s|, i requires 0 <= i < |s| => JStr([s[i]]))
    case _ => []
  }

  /** The elements are exactly what indexing reads. */
  lemma ElementsAt(v: Json)
    ensures forall i :: 0 <= i < |Elements(v)| ==> At(v, i) == Some(Elements(v)[i])
  {
  }

  /** `typeof v === 'number'`, which holds of NaN too. */
  predicate NumberValue(v: Json) {
    v.JNum? || v.JNaN?
  }

  /** `_.isNumber` applied to a read that may be `undefined`. */
  predicate IsNumber(o: Option<Json>) {
    o.Some? && NumberValue(o.value)
  }

  /**
    `_.find`'s search: the index of the first element whose callback result
    (given as `flags`) is truthy, if any.
   */
  function FindFirst(flags: seq<bool>): (r: Option<nat>)
    ensures r.Some? ==> r.value < |flags| && flags[r.value]
    ensures r.Some? ==> forall j :: 0 <= j < r.value ==> !flags[j]
    ensures r.None? ==> forall j :: 0 <= j < |flags| ==> !flags[j]
  {
    if |flags| == 0 then None
    else if flags[0] then Some(0)
    else
      match FindFirst(flags[1..])
      case None => None
      case Some(k) => Some(k + 1)
  }

  /** The `type` of an object when it is a string, else the empty text (which names no type). */
  function TypeName(v: Json): string {
    if v.JObj? && "type" in v.fields && v.fields["type"].JStr? then v.fields["type"].s else ""
  }

  /**
    How deep below `coordinates` the validator reads `.length` of every element
    it walks: the positions of a MultiPoint or LineString and the rings of a
    Polygon (1); the positions of each line of a MultiLineString and the rings
    of each polygon of a MultiPolygon (2). A Point's coordinates are only
    indexed, and no other type walks its coordinates (0).
   */
  function WalkDepth(name: string): nat {
    if name == "MultiPoint" || name == "LineString" || name == "Polygon" then 1
    else if name == "MultiLineString" || name == "MultiPolygon" then 2
    else 0
  }

  /** The member array each collection type walks. */
  predicate CollectionKey(name: string, key: string) {
    (name == "FeatureCollection" && key == "features") || (name == "GeometryCollection" && key == "geometries")
  }

  /** No element `depth` levels below `c` is `null` (depth 1: the members of `c`). */
  predicate NullFreeAt(c: Json, depth: nat) {
    match c
    case JArr(items) =>
      forall i :: 0 <= i < |items| ==>
        (depth == 1 ==> !items[i].JNull?) && (depth > 1 ==> NullFreeAt(items[i], depth - 1))
    case _ => true
  }

  /**
    The inputs on which the model of the validator is exact. The JavaScript
    throws when it reads a property of `null`: the object itself, a member of
    a collection it walks, or an element of `coordinates` at the depth its type
    walks (`WalkDepth`). The model does not give objects found inside walked
    `coordinates` an iteration order or array-like keys.
   */
  predicate Supported(v: Json) {
    !v.JNull? && WellNested(v)
  }

  /** What `Supported` asks of an object below its top level, type by type. */
  predicate WellNested(v: Json)
    decreases v, 1
  {
    match v
    case JObj(f) =>
      var name := TypeName(v);
      ("coordinates" in f && WalkDepth(name) > 0 ==>
         ObjectFree(f["coordinates"]) && NullFreeAt(f["coordinates"], WalkDepth(name))) &&
      (name == "Feature" && "geometry" in f ==> WellNested(f["geometry"])) &&
      (name == "FeatureCollection" && "features" in f ==> MembersNested(f["features"])) &&
      (name == "GeometryCollection" && "geometries" in f ==> MembersNested(f["geometries"]))
    case _ => true
  }

  /** The members of a collection array are non-null and well nested. */
  predicate MembersNested(a: Json)
    decreases a, 0
  {
    a.JArr? ==> forall i :: 0 <= i < |a.items| ==> !a.items[i].JNull? && WellNested(a.items[i])
  }

  /** A Feature's truthy `geometry` is itself supported. */
  lemma FeatureGeometrySupported(v: Json)
    requires Supported(v) && TypeName(v) == "Feature" && Present(Get(v, "geometry"))
    ensures Supported(Get(v, "geometry").value)
  {
  }

  /** The members of a supported collection's array are supported. */
  lemma MembersSupported(v: Json, key: string)
    requires Supported(v) && CollectionKey(TypeName(v), key)
    requires Get(v, key).Some? && Get(v, key).value.JArr?
    ensures forall i :: 0 <= i < |Get(v, key).value.items| ==> Supported(Get(v, key).value.items[i])
  {
    assert MembersNested(v.fields[key]);
  }

  /** No object occurs anywhere inside `v`. */
  predicate ObjectFree(v: Json) {
    match v
    case JObj(_) => false
    case JArr(items) => forall i :: 0 <= i < |items| ==> ObjectFree(items[i])
    case _ => true
  }

  /** Neither `null` nor an object occurs anywhere inside `v`. */
  predicate PlainData(v: Json) {
    match v
    case JNull => false
    case JObj(_) => false
    case JArr(items) => forall i :: 0 <= i < |items| ==> PlainData(items[i])
    case _ => true
  }

  /** An object with the given properties, as an object literal would build it. */
  function Geometry(kind: string, coordinates: Json): (r: Json)
    ensures Get(r, "type") == Some(JStr(kind))
    ensures Get(r, "coordinates") == Some(coordinates)
  {
    JObj(map["type" := JStr(kind), "coordinates" := coordinates])
  }
}
