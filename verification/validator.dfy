/**
  The GeoJSON structural validator `isGeoJSON` and its helpers `_returnError`,
  `_isPosition`, `_isLinearRing` and `_isLineString`, as written: every
  `_.find` returns the first element whose callback result is truthy, and the
  following `if (invalid)` tests the truthiness of that ELEMENT.
 */
module Validator {
  import opened Js

  /** The messages the validator can report; `Text` gives their wording. */
  datatype Message =
    | BadType
    | BadPoint
    | ShortRing
    | OpenRing
    | BadLineStringPoint
    | ShortMultiPoint
    | BadMultiPointMember
    | ShortLineString
    | ShortMultiLineString
    | BadMultiLineStringMember
    | BadMultiPolygonMember
    | NoGeometry
    | NoProperties
    | NoFeatures
    | FeaturesNotArray
    | BadFeature
    | NoGeometries
    | GeometriesNotArray
    | BadGeometry

  function Text(m: Message): string {
    match m
    case BadType => "invalid GeoJSON type supplied"
    case BadPoint => "invalid coordinates for GeoJSON Point"
    case ShortRing => "expecting coordinates of GeoJSON object to have at least 4 positions"
    case OpenRing => "the first and last positions of GeoJSON LinearRing are not the same"
    case BadLineStringPoint => "one of the coordinates of the LineString are invalid"
    case ShortMultiPoint => "expecting array with at least 2 elements for GeoJSON MultiPoint"
    case BadMultiPointMember => "one of the coordinates of the GeoJSON MultiPoint are invalid"
    case ShortLineString => "expecting array with at least 2 elements for GeoJSON LineString"
    case ShortMultiLineString => "expecting array of multiple set of coordinates for GeoJSON MultiLineString"
    case BadMultiLineStringMember => "one of the coordinates of the GeoJSON MultiLineString are invalid"
    case BadMultiPolygonMember => "one of the coordinateof the GeoJSON MultiPolygon are invalid"
    case NoGeometry => "expected GeoJSON Feature to have a geometry"
    case NoProperties => "expected GeoJSON Feature to have properties"
    case NoFeatures => "expected GeoJSON FeatureCollection to have features"
    case FeaturesNotArray => "expected GeoJSON FeatureCollection's features to be an array"
    case BadFeature => "one of the GeoJSON FeatureCollection's features is invalid"
    case NoGeometries => "expected GeoJSON GeometryCollection to have geometries"
    case GeometriesNotArray => "expected GeoJSON GeometryCollection's geometries to be an array"
    case BadGeometry => "one of the GeoJSON GeometryCollection's geometries is invalid"
  }

  /**
    What the validator returns: a bare boolean, `{result}` or `{result, message}`.
   */
  datatype Verdict =
    | Plain(value: bool)
    | Tagged(result: bool)
    | TaggedMsg(result: bool, message: Message)

  /** JavaScript truthiness of a verdict: an object is always truthy. */
  predicate Holds(r: Verdict) {
    match r
    case Plain(b) => b
    case _ => true
  }

  /** The nine GeoJSON types, in the order of the type table. */
  datatype Kind =
    | Point
    | MultiPoint
    | LineString
    | MultiLineString
    | Polygon
    | MultiPolygon
    | Feature
    | FeatureCollection
    | GeometryCollection

  /** The `type` string of each kind. */
  function Name(k: Kind): string {
    match k
    case Point => "Point"
    case MultiPoint => "MultiPoint"
    case LineString => "LineString"
    case MultiLineString => "MultiLineString"
    case Polygon => "Polygon"
    case MultiPolygon => "MultiPolygon"
    case Feature => "Feature"
    case FeatureCollection => "FeatureCollection"
    case GeometryCollection => "GeometryCollection"
  }

  /** The number of entries in the type table `validTypes`. */
  const TypeCount := 9

  /** The kind whose name is entry `index` of the type table `validTypes`. */
  function KindAt(index: nat): (k: Kind)
    requires index < TypeCount
    ensures index < 6 <==> GeometryKind(k)
  {
    if index == 0 then Point
    else if index == 1 then MultiPoint
    else if index == 2 then LineString
    else if index == 3 then MultiLineString
    else if index == 4 then Polygon
    else if index == 5 then MultiPolygon
    else if index == 6 then Feature
    else if index == 7 then FeatureCollection
    else GeometryCollection
  }

  /** The kind `isGeoJSON` dispatches an object to, if its `type` is in the table. */
  function TypeKind(v: Json): Option<Kind> {
    var index := TypeIndex(Get(v, "type"));
    if index < 0 then None else Some(KindAt(index))
  }

  /** The first six entries of the type table. */
  predicate GeometryKind(k: Kind) {
    !(k.Feature? || k.FeatureCollection? || k.GeometryCollection?)
  }

  /**
    `_returnError`: without the diagnostic flag the bare value; with it an
    object, which JavaScript treats as truthy even when it reports `false`.
    `None` stands for the empty message, which adds no `message` property.
   */
  function ReturnError(err: bool, diag: bool, message: Option<Message>): (r: Verdict)
    ensures Holds(r) <==> diag || err
    ensures !diag ==> r == Plain(err)
    ensures diag ==> !r.Plain? && r.result == err
    ensures diag ==> (r.TaggedMsg? <==> message.Some?) && (r.TaggedMsg? ==> r.message == message.value)
  {
    if !diag then Plain(err)
    else if message.Some? then TaggedMsg(err, message.value)
    else Tagged(err)
  }

  /** A rejection: bare `false` without diagnostics, an object reporting `false` with them. */
  predicate RejectionShape(r: Verdict, diag: bool) {
    if diag then !r.Plain? && !r.result else r == Plain(false)
  }

  /** `invalid = _.find(items, callback); if (invalid) ...`, where `flags` are the callback results. */
  predicate FindsTruthy(items: seq<Json>, flags: seq<bool>)
    requires |flags| == |items|
  {
    var k := FindFirst(flags);
    k.Some? && Truthy(items[k.value])
  }

  /**
    `_.indexOf(validTypes, t)`: the position of `t` in the type table, or -1.
    The comparison is strict, so only a string can match.
   */
  function TypeIndex(t: Option<Json>): (r: int)
    ensures -1 <= r < TypeCount
    ensures r >= 0 ==> t == Some(JStr(Name(KindAt(r))))
    ensures r < 0 ==> forall k: Kind :: t != Some(JStr(Name(k)))
  {
    if t.Some? && t.value.JStr? then
      var s := t.value.s;
      if s == "Point" then 0
      else if s == "MultiPoint" then 1
      else if s == "LineString" then 2
      else if s == "MultiLineString" then 3
      else if s == "Polygon" then 4
      else if s == "MultiPolygon" then 5
      else if s == "Feature" then 6
      else if s == "FeatureCollection" then 7
      else if s == "GeometryCollection" then 8
      else -1
    else -1
  }

  /** What `_isPosition` accepts: an array whose first two entries are numbers. */
  predicate PositionLike(v: Json) {
    v.JArr? && |v.items| >= 2 && NumberValue(v.items[0]) && NumberValue(v.items[1])
  }

  /**
    `_isPosition(coordinates, returnError)`: accepts exactly the arrays whose
    first two entries are numbers (a string has no numeric characters, and
    anything else has no `length` or no numeric entries), and rejects
    everything else with the Point message.
   */
  function IsPosition(v: Json, diag: bool): (r: Verdict)
    ensures r == Plain(true) <==> v.JArr? && |v.items| >= 2 && NumberValue(v.items[0]) && NumberValue(v.items[1])
    ensures r != Plain(true) ==> r == ReturnError(false, diag, Some(BadPoint))
  {
    if ShorterThan(v, 2) || !IsNumber(At(v, 0)) || !IsNumber(At(v, 1)) then
      ReturnError(false, diag, Some(BadPoint))
    else
      Plain(true)
  }

  /** The truthiness of the `_.find` callback in `_isLinearRing`, for one "ring". */
  predicate RingFlagged(ring: Json, diag: bool) {
    if ShorterThan(ring, 4) then Holds(ReturnError(false, diag, Some(ShortRing)))
    else if Last(ring) != At(ring, 0) then Holds(ReturnError(false, diag, Some(OpenRing)))
    else Holds(IsPosition(ring, false))
  }

  /** The callback results `_.find` sees in `_isLinearRing`, one per ring. */
  function RingFlags(rings: seq<Json>, diag: bool): (r: seq<bool>)
    ensures |r| == |rings|
  {
    seq(|rings|, i requires 0 <= i < |rings| => RingFlagged(rings[i], diag))
  }

  /** The callback results of `!_isPosition(xy)`, one per point. */
  function PointFlags(points: seq<Json>): (r: seq<bool>)
    ensures |r| == |points|
  {
    seq(|points|, i requires 0 <= i < |points| => !Holds(IsPosition(points[i], false)))
  }

  /** `_isLinearRing(arr, returnError)`, applied to the list of rings. */
  function IsLinearRing(arr: Json, diag: bool): (r: Verdict)
    ensures r == Plain(true) || r == ReturnError(false, diag, None)
  {
    var rings := Elements(arr);
    if FindsTruthy(rings, RingFlags(rings, diag)) then ReturnError(false, diag, None) else Plain(true)
  }

  /** `_isLineString(coordinates, returnError)`. */
  function IsLineString(line: Json, diag: bool): (r: Verdict)
    ensures r == Plain(true) || r == ReturnError(false, diag, Some(BadLineStringPoint))
  {
    var points := Elements(line);
    if FindsTruthy(points, PointFlags(points)) then ReturnError(false, diag, Some(BadLineStringPoint)) else Plain(true)
  }

  /** `isGeoJSON(obj, returnError)`. */
  function Validate(v: Json, diag: bool): (r: Verdict)
    requires Supported(v)
    ensures r == Plain(true) || RejectionShape(r, diag)
    ensures !Present(Get(v, "type")) || TypeIndex(Get(v, "type")) < 0 ==> r == ReturnError(false, diag, Some(BadType))
    decreases v, 2
  {
    var t := Get(v, "type");
    var index := TypeIndex(t);
    if !Present(t) || index < 0 then
      ReturnError(false, diag, Some(BadType))
    else if index < 6 then
      ValidateGeometry(v, KindAt(index), diag)
    else if index == 6 then
      ValidateFeature(v, diag)
    else if index == 7 then
      ValidateCollection(v, "features", diag, NoFeatures, FeaturesNotArray, BadFeature)
    else
      ValidateCollection(v, "geometries", diag, NoGeometries, GeometriesNotArray, BadGeometry)
  }

  /** The six geometry kinds: a `coordinates` array, then the kind's own rule. */
  function ValidateGeometry(v: Json, kind: Kind, diag: bool): (r: Verdict)
    requires GeometryKind(kind)
    ensures r == Plain(true) || RejectionShape(r, diag)
    ensures var c := Get(v, "coordinates");
            !Present(c) || !c.value.JArr? ==> r == ReturnError(false, diag, Some(BadType))
  {
    var c := Get(v, "coordinates");
    if !Present(c) || !c.value.JArr? then
      ReturnError(false, diag, Some(BadType))
    else
      match kind
      case Point => IsPosition(c.value, diag)
      case MultiPoint => ValidateMultiPoint(c.value.items, diag)
      case LineString => ValidateLineString(c.value.items, diag)
      case MultiLineString => ValidateMultiLineString(c.value.items, diag)
      case Polygon => IsLinearRing(c.value, diag)
      case MultiPolygon => ValidateMultiPolygon(c.value.items, diag)
  }

  function ValidateMultiPoint(coords: seq<Json>, diag: bool): (r: Verdict)
    ensures |coords| < 2 ==> r == ReturnError(false, diag, Some(ShortMultiPoint))
    ensures |coords| >= 2 ==> r == Plain(true) || r == ReturnError(false, diag, Some(BadMultiPointMember))
  {
    if |coords| < 2 then
      ReturnError(false, diag, Some(ShortMultiPoint))
    else if FindsTruthy(coords, PointFlags(coords)) then
      ReturnError(false, diag, Some(BadMultiPointMember))
    else
      Plain(true)
  }

  function ValidateLineString(coords: seq<Json>, diag: bool): (r: Verdict)
    ensures |coords| < 2 ==> r == ReturnError(false, diag, Some(ShortLineString))
    ensures |coords| >= 2 ==> r == Plain(true) || r == ReturnError(false, diag, Some(BadLineStringPoint))
  {
    if |coords| < 2 then
      ReturnError(false, diag, Some(ShortLineString))
    else
      IsLineString(JArr(coords), diag)
  }

  /** The flag is passed on to `_isLineString`, whose diagnostic object is truthy. */
  function ValidateMultiLineString(coords: seq<Json>, diag: bool): (r: Verdict)
    ensures |coords| < 2 ==> r == ReturnError(false, diag, Some(ShortMultiLineString))
    ensures |coords| >= 2 ==> r == Plain(true) || r == ReturnError(false, diag, Some(BadMultiLineStringMember))
  {
    if |coords| < 2 then
      ReturnError(false, diag, Some(ShortMultiLineString))
    else if FindsTruthy(coords, LineFlags(coords, diag)) then
      ReturnError(false, diag, Some(BadMultiLineStringMember))
    else
      Plain(true)
  }

  /** The flag is passed on to `_isLinearRing`, whose diagnostic object is truthy. */
  function ValidateMultiPolygon(coords: seq<Json>, diag: bool): (r: Verdict)
    ensures r == Plain(true) || r == ReturnError(false, diag, Some(BadMultiPolygonMember))
  {
    if FindsTruthy(coords, PolygonFlags(coords, diag)) then
      ReturnError(false, diag, Some(BadMultiPolygonMember))
    else
      Plain(true)
  }

  /** The callback results of `!_isLineString(line, returnError)`, one per line. */
  function LineFlags(lines: seq<Json>, diag: bool): (r: seq<bool>)
    ensures |r| == |lines|
  {
    seq(|lines|, i requires 0 <= i < |lines| => !Holds(IsLineString(lines[i], diag)))
  }

  /** The callback results of `!_isLinearRing(polygon, returnError)`, one per polygon. */
  function PolygonFlags(polygons: seq<Json>, diag: bool): (r: seq<bool>)
    ensures |r| == |polygons|
  {
    seq(|polygons|, i requires 0 <= i < |polygons| => !Holds(IsLinearRing(polygons[i], diag)))
  }

  /** A Feature: a truthy `geometry` and `properties`; `id` is not looked at. */
  function ValidateFeature(v: Json, diag: bool): (r: Verdict)
    requires Supported(v) && TypeName(v) == "Feature"
    ensures r == Plain(true) || RejectionShape(r, diag)
    ensures !Present(Get(v, "geometry")) ==> r == ReturnError(false, diag, Some(NoGeometry))
    ensures Present(Get(v, "geometry")) && !Present(Get(v, "properties")) ==> r == ReturnError(false, diag, Some(NoProperties))
    decreases v, 1
  {
    var geometry := Get(v, "geometry");
    if !Present(geometry) then
      ReturnError(false, diag, Some(NoGeometry))
    else if !Present(Get(v, "properties")) then
      ReturnError(false, diag, Some(NoProperties))
    else
      FeatureGeometrySupported(v);
      // the geometry's verdict is returned unchanged, diagnostics included
      Validate(geometry.value, diag)
  }

  /**
    FeatureCollection and GeometryCollection: an array member whose elements are
    re-validated WITHOUT diagnostics; only a generic message is reported.
   */
  function ValidateCollection(v: Json, key: string, diag: bool,
                              missing: Message, notArray: Message, bad: Message): (r: Verdict)
    requires Supported(v) && CollectionKey(TypeName(v), key)
    ensures var members := Get(v, key);
            if !Present(members) then r == ReturnError(false, diag, Some(missing))
            else if !members.value.JArr? then r == ReturnError(false, diag, Some(notArray))
            else r == Plain(true) || r == ReturnError(false, diag, Some(bad))
    decreases v, 1
  {
    var members := Get(v, key);
    if !Present(members) then
      ReturnError(false, diag, Some(missing))
    else if !members.value.JArr? then
      ReturnError(false, diag, Some(notArray))
    else
      var ms := members.value.items;
      if FindsTruthy(ms, MemberFlags(v, key, ms)) then ReturnError(false, diag, Some(bad)) else Plain(true)
  }

  /** The callback results of `!isGeoJSON(member)`, one per collection member. */
  function MemberFlags(v: Json, key: string, ms: seq<Json>): (r: seq<bool>)
    requires Supported(v) && CollectionKey(TypeName(v), key) && Get(v, key) == Some(JArr(ms))
    ensures |r| == |ms|
    decreases v, 0
  {
    MembersSupported(v, key);
    seq(|ms|, i requires 0 <= i < |ms| => !Holds(Validate(ms[i], false)))
  }
}
