/**
  What `isGeoJSON` accepts and rejects, kind by kind, in both diagnostic modes,
  and the shape of what it returns.
 */
module ValidatorFacts {
  import opened Js
  import opened Validator

  /** `isGeoJSON(v, diag)` succeeds. */
  predicate Accepts(v: Json, diag: bool)
    requires Supported(v)
  {
    Validate(v, diag) == Plain(true)
  }

  /** `v` has the `type` name of the given kind. */
  predicate HasType(v: Json, kind: Kind) {
    Get(v, "type") == Some(JStr(Name(kind)))
  }

  /** `v` is a geometry object of the given kind whose `coordinates` is the array `c`. */
  predicate IsGeometry(v: Json, kind: Kind, c: seq<Json>) {
    HasType(v, kind) && Get(v, "coordinates") == Some(JArr(c))
  }

  /**
    `if (_.find(items, p))` does not fire: no element satisfies `p`, or the
    first one that does is falsy.
   */
  ghost predicate FirstMatchFalsy(items: seq<Json>, p: Json -> bool) {
    forall i :: 0 <= i < |items| && p(items[i]) && (forall j :: 0 <= j < i ==> !p(items[j])) ==>
      !Truthy(items[i])
  }

  predicate NotPosition(v: Json) { !PositionLike(v) }

  /** A "ring" that `_isLinearRing` flags without diagnostics: a closed flat list whose first two entries are numbers. */
  predicate ClosedFlat(ring: Json) {
    !ShorterThan(ring, 4) && Last(ring) == At(ring, 0) && PositionLike(ring)
  }

  /** A ring that `_isLinearRing` lets through with diagnostics. */
  predicate RingShaped(ring: Json) {
    !ShorterThan(ring, 4) && Last(ring) == At(ring, 0) && !PositionLike(ring)
  }

  predicate NotRingShaped(ring: Json) { !RingShaped(ring) }

  // ---------------------------------------------------------------------------
  // `_.find` followed by `if (invalid)`

  lemma FindsTruthyExactly(items: seq<Json>, flags: seq<bool>, p: Json -> bool)
    requires |flags| == |items|
    requires forall i :: 0 <= i < |items| ==> flags[i] == p(items[i])
    ensures FindsTruthy(items, flags) <==> !FirstMatchFalsy(items, p)
    ensures (forall i :: 0 <= i < |items| && p(items[i]) ==> Truthy(items[i])) ==>
              (FindsTruthy(items, flags) <==> exists i :: 0 <= i < |items| && p(items[i]))
  {
    var k := FindFirst(flags);
    if k.Some? {
      assert p(items[k.value]);
      if (forall i :: 0 <= i < |items| && p(items[i]) ==> Truthy(items[i])) {
        assert Truthy(items[k.value]);
      }
    } else {
      assert forall i :: 0 <= i < |items| ==> !p(items[i]);
    }
  }

  // ---------------------------------------------------------------------------
  // Positions, rings and line strings

  /** Something that is flagged as a closed flat ring is an array, hence truthy. */
  lemma ClosedFlatIsTruthy(ring: Json)
    requires ClosedFlat(ring)
    ensures ring.JArr? && Truthy(ring)
  {
  }

  /**
    `_isLinearRing` without diagnostics rejects only closed flat lists of
    numbers; with diagnostics it rejects a (truthy) ring that is short,
    unclosed or itself position-like, with `{result: false}` and no message.
   */
  lemma LinearRingRule(arr: Json)
    ensures IsLinearRing(arr, false) == Plain(true) <==>
              forall j :: 0 <= j < |Elements(arr)| ==> !ClosedFlat(Elements(arr)[j])
    ensures IsLinearRing(arr, false) != Plain(true) ==> IsLinearRing(arr, false) == Plain(false)
    ensures IsLinearRing(arr, true) == Plain(true) <==> FirstMatchFalsy(Elements(arr), NotRingShaped)
    ensures IsLinearRing(arr, true) != Plain(true) ==> IsLinearRing(arr, true) == Tagged(false)
  {
    var rings := Elements(arr);
    var plain, diagnosed := RingFlags(rings, false), RingFlags(rings, true);
    forall i | 0 <= i < |rings|
      ensures plain[i] == ClosedFlat(rings[i]) && diagnosed[i] == NotRingShaped(rings[i])
    {
    }
    forall i | 0 <= i < |rings| && ClosedFlat(rings[i]) ensures Truthy(rings[i]) {
      ClosedFlatIsTruthy(rings[i]);
    }
    FindsTruthyExactly(rings, plain, ClosedFlat);
    FindsTruthyExactly(rings, diagnosed, NotRingShaped);
  }

  /**
    `_isLineString` fails exactly when its first non-position point is truthy;
    when every point is truthy, exactly when some point is not a position.
   */
  lemma LineStringPointsRule(line: Json, diag: bool)
    ensures IsLineString(line, diag) == Plain(true) <==> FirstMatchFalsy(Elements(line), NotPosition)
    ensures (forall i :: 0 <= i < |Elements(line)| ==> Truthy(Elements(line)[i])) ==>
              (IsLineString(line, diag) == Plain(true) <==>
                 forall i :: 0 <= i < |Elements(line)| ==> PositionLike(Elements(line)[i]))
    ensures IsLineString(line, diag) != Plain(true) ==>
              IsLineString(line, diag) == ReturnError(false, diag, Some(BadLineStringPoint))
  {
    var points := Elements(line);
    var flags := PointFlags(points);
    forall i | 0 <= i < |points| ensures flags[i] == NotPosition(points[i]) {
    }
    FindsTruthyExactly(points, flags, NotPosition);
  }

  /** A line that `_isLineString` rejects has a truthy point, so it is itself truthy. */
  lemma RejectedLineIsTruthy(line: Json)
    requires IsLineString(line, false) != Plain(true)
    ensures Truthy(line)
  {
    var points := Elements(line);
    var flags := PointFlags(points);
    assert FindsTruthy(points, flags);
    assert |points| > 0;
  }

  /** A list of rings that `_isLinearRing` rejects without diagnostics holds a ring, so it is truthy. */
  lemma RejectedRingsAreTruthy(arr: Json)
    requires IsLinearRing(arr, false) != Plain(true)
    ensures Truthy(arr)
  {
    LinearRingRule(arr);
    assert |Elements(arr)| > 0;
  }

  // ---------------------------------------------------------------------------
  // The verdict's shape

  /** ReturnError(false, ...) always has the shape of a rejection. */
  lemma FalseIsRejection(diag: bool, message: Option<Message>)
    ensures RejectionShape(ReturnError(false, diag, message), diag)
  {
  }

  /** With diagnostics the returned value is always truthy, accepted or not. */
  lemma DiagnosticVerdictIsTruthy(v: Json)
    requires Supported(v)
    ensures Holds(Validate(v, true))
  {
  }

  /** Without diagnostics the returned value is truthy exactly when the object is accepted. */
  lemma PlainVerdictIsAcceptance(v: Json)
    requires Supported(v)
    ensures Holds(Validate(v, false)) <==> Accepts(v, false)
  {
  }

  // ---------------------------------------------------------------------------
  // The type table

  /** Where each kind's name sits in the type table. */
  function Position(k: Kind): (i: nat)
    ensures i < TypeCount && KindAt(i) == k
  {
    match k
    case Point => 0
    case MultiPoint => 1
    case LineString => 2
    case MultiLineString => 3
    case Polygon => 4
    case MultiPolygon => 5
    case Feature => 6
    case FeatureCollection => 7
    case GeometryCollection => 8
  }

  /** `_.indexOf` finds each kind's name at the kind's own position: no name occurs twice. */
  lemma TypeTable(k: Kind)
    ensures TypeIndex(Some(JStr(Name(k)))) == Position(k)
  {
  }

  /** The type table sends each geometry name to that geometry's rule. */
  lemma GeometryDispatch(v: Json, diag: bool, kind: Kind)
    requires Supported(v) && HasType(v, kind) && GeometryKind(kind)
    ensures Validate(v, diag) == ValidateGeometry(v, kind, diag)
  {
    TypeTable(kind);
  }

  lemma FeatureDispatch(v: Json, diag: bool)
    requires Supported(v) && HasType(v, Feature)
    ensures Validate(v, diag) == ValidateFeature(v, diag)
  {
    TypeTable(Feature);
  }

  lemma FeatureCollectionDispatch(v: Json, diag: bool)
    requires Supported(v) && HasType(v, FeatureCollection)
    ensures Validate(v, diag) ==
              ValidateCollection(v, "features", diag, NoFeatures, FeaturesNotArray, BadFeature)
  {
    TypeTable(FeatureCollection);
  }

  lemma GeometryCollectionDispatch(v: Json, diag: bool)
    requires Supported(v) && HasType(v, GeometryCollection)
    ensures Validate(v, diag) ==
              ValidateCollection(v, "geometries", diag, NoGeometries, GeometriesNotArray, BadGeometry)
  {
    TypeTable(GeometryCollection);
  }

  /**
    A missing type, or one that is not exactly one of the nine names, is
    rejected with 'invalid GeoJSON type supplied'.
   */
  lemma TypeGate(v: Json, diag: bool)
    requires Supported(v)
    ensures (forall k: Kind :: !HasType(v, k)) ==> Validate(v, diag) == ReturnError(false, diag, Some(BadType))
  {
    var index := TypeIndex(Get(v, "type"));
    if index >= 0 {
      assert HasType(v, KindAt(index));
    }
  }

  /** A geometry whose `coordinates` is missing, falsy or not an array is rejected the same way. */
  lemma CoordinatesGate(v: Json, diag: bool, kind: Kind)
    requires Supported(v) && HasType(v, kind) && GeometryKind(kind)
    ensures !(Present(Get(v, "coordinates")) && Get(v, "coordinates").value.JArr?) ==>
              Validate(v, diag) == ReturnError(false, diag, Some(BadType))
  {
    GeometryDispatch(v, diag, kind);
  }

  // ---------------------------------------------------------------------------
  // The six geometry kinds

  /** A Point is valid exactly when `coordinates` has two leading numbers; numeric strings fail. */
  lemma PointRule(v: Json, diag: bool, c: seq<Json>)
    requires Supported(v) && IsGeometry(v, Point, c)
    ensures Accepts(v, diag) <==> |c| >= 2 && NumberValue(c[0]) && NumberValue(c[1])
    ensures !Accepts(v, diag) ==> Validate(v, diag) == ReturnError(false, diag, Some(BadPoint))
  {
    GeometryDispatch(v, diag, Point);
  }

  /** `{type: "Point", coordinates: [1, null]}` is judged, not thrown on: a `null` coordinate is no number. */
  lemma NullCoordinateIsNoPoint(diag: bool)
    ensures var v := Geometry("Point", JArr([JNum(1.0), JNull]));
            Supported(v) && Validate(v, diag) == ReturnError(false, diag, Some(BadPoint))
  {
    var v := Geometry("Point", JArr([JNum(1.0), JNull]));
    assert Supported(v);
    PointRule(v, diag, [JNum(1.0), JNull]);
  }

  lemma MultiPointMembers(c: seq<Json>, diag: bool)
    ensures |c| < 2 ==> ValidateMultiPoint(c, diag) == ReturnError(false, diag, Some(ShortMultiPoint))
    ensures |c| >= 2 ==> (ValidateMultiPoint(c, diag) == Plain(true) <==> FirstMatchFalsy(c, NotPosition))
    ensures |c| >= 2 && ValidateMultiPoint(c, diag) != Plain(true) ==>
              ValidateMultiPoint(c, diag) == ReturnError(false, diag, Some(BadMultiPointMember))
    ensures (forall i :: 0 <= i < |c| ==> Truthy(c[i])) ==>
              (ValidateMultiPoint(c, diag) == Plain(true) <==>
                 |c| >= 2 && forall i :: 0 <= i < |c| ==> PositionLike(c[i]))
  {
    var flags := PointFlags(c);
    forall i | 0 <= i < |c| ensures flags[i] == NotPosition(c[i]) {
    }
    FindsTruthyExactly(c, flags, NotPosition);
  }

  /**
    A MultiPoint needs at least two members and is rejected at the first member
    that is not a position, unless that member is falsy.
   */
  lemma MultiPointRule(v: Json, diag: bool, c: seq<Json>)
    requires Supported(v) && IsGeometry(v, MultiPoint, c)
    ensures |c| < 2 ==> Validate(v, diag) == ReturnError(false, diag, Some(ShortMultiPoint))
    ensures |c| >= 2 ==> (Accepts(v, diag) <==> FirstMatchFalsy(c, NotPosition))
    ensures |c| >= 2 && !Accepts(v, diag) ==>
              Validate(v, diag) == ReturnError(false, diag, Some(BadMultiPointMember))
    ensures (forall i :: 0 <= i < |c| ==> Truthy(c[i])) ==>
              (Accepts(v, diag) <==> |c| >= 2 && forall i :: 0 <= i < |c| ==> PositionLike(c[i]))
  {
    GeometryDispatch(v, diag, MultiPoint);
    MultiPointMembers(c, diag);
  }

  /**
    A LineString needs at least two members and is rejected at the first member
    that is not a position, unless that member is falsy.
   */
  lemma LineStringRule(v: Json, diag: bool, c: seq<Json>)
    requires Supported(v) && IsGeometry(v, LineString, c)
    ensures |c| < 2 ==> Validate(v, diag) == ReturnError(false, diag, Some(ShortLineString))
    ensures |c| >= 2 ==> (Accepts(v, diag) <==> FirstMatchFalsy(c, NotPosition))
    ensures |c| >= 2 && !Accepts(v, diag) ==>
              Validate(v, diag) == ReturnError(false, diag, Some(BadLineStringPoint))
    ensures (forall i :: 0 <= i < |c| ==> Truthy(c[i])) ==>
              (Accepts(v, diag) <==> |c| >= 2 && forall i :: 0 <= i < |c| ==> PositionLike(c[i]))
  {
    GeometryDispatch(v, diag, LineString);
    LineStringPointsRule(JArr(c), diag);
  }

  /** Whether a MultiLineString line fails `_isLineString` without diagnostics. */
  predicate BadLine(line: Json) { IsLineString(line, false) != Plain(true) }

  lemma MultiLineStringMembers(c: seq<Json>)
    ensures ValidateMultiLineString(c, true) == Plain(true) <==> |c| >= 2
    ensures ValidateMultiLineString(c, false) == Plain(true) <==>
              |c| >= 2 && forall i :: 0 <= i < |c| ==> !BadLine(c[i])
    ensures |c| < 2 ==> ValidateMultiLineString(c, false) == Plain(false)
    ensures |c| < 2 ==> ValidateMultiLineString(c, true) == TaggedMsg(false, ShortMultiLineString)
    ensures ValidateMultiLineString(c, false) != Plain(true) ==> ValidateMultiLineString(c, false) == Plain(false)
  {
    var withDiag, withoutDiag := LineFlags(c, true), LineFlags(c, false);
    assert forall i :: 0 <= i < |c| ==> !withDiag[i];
    assert FindFirst(withDiag).None?;
    forall i | 0 <= i < |c| ensures withoutDiag[i] == BadLine(c[i]) && (BadLine(c[i]) ==> Truthy(c[i])) {
      if BadLine(c[i]) {
        RejectedLineIsTruthy(c[i]);
      }
    }
    FindsTruthyExactly(c, withoutDiag, BadLine);
  }

  /**
    A MultiLineString needs at least two lines. With diagnostics nothing else is
    checked; without, it is rejected when some line fails `_isLineString`.
   */
  lemma MultiLineStringRule(v: Json, c: seq<Json>)
    requires Supported(v) && IsGeometry(v, MultiLineString, c)
    ensures Accepts(v, true) <==> |c| >= 2
    ensures Accepts(v, false) <==> |c| >= 2 && forall i :: 0 <= i < |c| ==> !BadLine(c[i])
    ensures |c| < 2 ==> Validate(v, false) == Plain(false)
    ensures |c| < 2 ==> Validate(v, true) == TaggedMsg(false, ShortMultiLineString)
    ensures !Accepts(v, false) ==> Validate(v, false) == Plain(false)
  {
    assert Validate(v, true) == ValidateMultiLineString(c, true) by {
      GeometryDispatch(v, true, MultiLineString);
    }
    assert Validate(v, false) == ValidateMultiLineString(c, false) by {
      GeometryDispatch(v, false, MultiLineString);
    }
    MultiLineStringMembers(c);
  }

  lemma RingsRule(c: seq<Json>)
    ensures IsLinearRing(JArr(c), false) == Plain(true) <==> forall i :: 0 <= i < |c| ==> !ClosedFlat(c[i])
    ensures IsLinearRing(JArr(c), false) != Plain(true) ==> IsLinearRing(JArr(c), false) == Plain(false)
    ensures IsLinearRing(JArr(c), true) == Plain(true) <==> FirstMatchFalsy(c, NotRingShaped)
    ensures (forall i :: 0 <= i < |c| ==> Truthy(c[i])) ==>
              (IsLinearRing(JArr(c), true) == Plain(true) <==> forall i :: 0 <= i < |c| ==> RingShaped(c[i]))
    ensures IsLinearRing(JArr(c), true) != Plain(true) ==> IsLinearRing(JArr(c), true) == Tagged(false)
  {
    assert Elements(JArr(c)) == c;
    LinearRingRule(JArr(c));
    if forall i :: 0 <= i < |c| ==> Truthy(c[i]) {
      assert IsLinearRing(JArr(c), true) == Plain(true) <==> forall i :: 0 <= i < |c| ==> RingShaped(c[i]) by {
        var diagnosed := RingFlags(c, true);
        forall i | 0 <= i < |c| ensures diagnosed[i] == NotRingShaped(c[i]) {
        }
        FindsTruthyExactly(c, diagnosed, NotRingShaped);
      }
    }
  }

  /**
    A Polygon without diagnostics is rejected only for a closed flat list of
    numbers among its rings; with diagnostics, for a short, unclosed or
    position-like (truthy) ring, and then with `{result: false}` and no message.
   */
  lemma PolygonRule(v: Json, c: seq<Json>)
    requires Supported(v) && IsGeometry(v, Polygon, c)
    ensures Accepts(v, false) <==> forall i :: 0 <= i < |c| ==> !ClosedFlat(c[i])
    ensures !Accepts(v, false) ==> Validate(v, false) == Plain(false)
    ensures Accepts(v, true) <==> FirstMatchFalsy(c, NotRingShaped)
    ensures (forall i :: 0 <= i < |c| ==> Truthy(c[i])) ==>
              (Accepts(v, true) <==> forall i :: 0 <= i < |c| ==> RingShaped(c[i]))
    ensures !Accepts(v, true) ==> Validate(v, true) == Tagged(false)
  {
    GeometryDispatch(v, true, Polygon);
    GeometryDispatch(v, false, Polygon);
    RingsRule(c);
  }

  /** Whether a MultiPolygon member fails `_isLinearRing` without diagnostics. */
  predicate BadPolygon(rings: Json) { IsLinearRing(rings, false) != Plain(true) }

  /** Some polygon holds a ring that `_isLinearRing` flags without diagnostics. */
  predicate HasClosedFlatRing(c: seq<Json>) {
    exists i, j :: 0 <= i < |c| && 0 <= j < |Elements(c[i])| && ClosedFlat(Elements(c[i])[j])
  }

  lemma MultiPolygonMembers(c: seq<Json>)
    ensures ValidateMultiPolygon(c, true) == Plain(true)
    ensures ValidateMultiPolygon(c, false) == Plain(true) <==> !HasClosedFlatRing(c)
    ensures ValidateMultiPolygon(c, false) != Plain(true) ==> ValidateMultiPolygon(c, false) == Plain(false)
  {
    var withDiag, withoutDiag := PolygonFlags(c, true), PolygonFlags(c, false);
    forall i | 0 <= i < |c|
      ensures !withDiag[i]
      ensures withoutDiag[i] == BadPolygon(c[i]) && (BadPolygon(c[i]) ==> Truthy(c[i]))
      ensures BadPolygon(c[i]) <==> exists j :: 0 <= j < |Elements(c[i])| && ClosedFlat(Elements(c[i])[j])
    {
      LinearRingRule(c[i]);
      if BadPolygon(c[i]) {
        RejectedRingsAreTruthy(c[i]);
      }
    }
    assert FindFirst(withDiag).None?;
    FindsTruthyExactly(c, withoutDiag, BadPolygon);
  }

  /**
    A MultiPolygon with diagnostics is always accepted; without, it is rejected
    exactly when one of its polygons holds a closed flat list of numbers.
   */
  lemma MultiPolygonRule(v: Json, c: seq<Json>)
    requires Supported(v) && IsGeometry(v, MultiPolygon, c)
    ensures Accepts(v, true)
    ensures Accepts(v, false) <==> !HasClosedFlatRing(c)
    ensures !Accepts(v, false) ==> Validate(v, false) == Plain(false)
  {
    GeometryDispatch(v, true, MultiPolygon);
    GeometryDispatch(v, false, MultiPolygon);
    MultiPolygonMembers(c);
  }

  // ---------------------------------------------------------------------------
  // Feature and the two collections

  /**
    A Feature needs a truthy `geometry` and truthy `properties` (so `null`
    properties are rejected); then its verdict is its geometry's, unchanged.
   */
  lemma FeatureRule(v: Json, diag: bool)
    requires Supported(v) && HasType(v, Feature)
    ensures !Present(Get(v, "geometry")) ==> Validate(v, diag) == ReturnError(false, diag, Some(NoGeometry))
    ensures Present(Get(v, "geometry")) && !Present(Get(v, "properties")) ==>
              Validate(v, diag) == ReturnError(false, diag, Some(NoProperties))
    ensures Present(Get(v, "geometry")) && Present(Get(v, "properties")) ==>
              Supported(Get(v, "geometry").value) &&
              Validate(v, diag) == Validate(Get(v, "geometry").value, diag)
  {
    FeatureDispatch(v, diag);
    if Present(Get(v, "geometry")) {
      FeatureGeometrySupported(v);
    }
  }

  /** The diagnostic flag does not change whether a collection is accepted. */
  lemma CollectionModes(v: Json, key: string, missing: Message, notArray: Message, bad: Message)
    requires Supported(v) && CollectionKey(TypeName(v), key)
    ensures ValidateCollection(v, key, true, missing, notArray, bad) == Plain(true) <==>
            ValidateCollection(v, key, false, missing, notArray, bad) == Plain(true)
  {
  }

  /**
    The members of a collection are re-validated WITHOUT diagnostics; when all
    are truthy, the collection is accepted exactly when each member is.
   */
  lemma CollectionMembers(v: Json, key: string, diag: bool, missing: Message, notArray: Message, bad: Message,
                          ms: seq<Json>)
    requires Supported(v) && CollectionKey(TypeName(v), key) && Get(v, key) == Some(JArr(ms))
    ensures forall i :: 0 <= i < |ms| ==> Supported(ms[i])
    ensures var r := ValidateCollection(v, key, diag, missing, notArray, bad);
            r == Plain(true) || r == ReturnError(false, diag, Some(bad))
    ensures (forall i :: 0 <= i < |ms| ==> Truthy(ms[i])) ==>
              (ValidateCollection(v, key, diag, missing, notArray, bad) == Plain(true) <==>
                 forall i :: 0 <= i < |ms| ==> Accepts(ms[i], false))
  {
    MembersSupported(v, key);
    var flags := MemberFlags(v, key, ms);
    var r := ValidateCollection(v, key, diag, missing, notArray, bad);
    if forall i :: 0 <= i < |ms| ==> Truthy(ms[i]) {
      assert r == Plain(true) <==> !FindsTruthy(ms, flags);
      assert !FindsTruthy(ms, flags) <==> forall i :: 0 <= i < |ms| ==> Accepts(ms[i], false) by {
        forall i | 0 <= i < |ms| ensures flags[i] == !Accepts(ms[i], false) {
          PlainVerdictIsAcceptance(ms[i]);
        }
        FindsTruthyExactly(ms, flags, (m: Json) => !Supported(m) || !Accepts(m, false));
      }
    }
  }

  /**
    A FeatureCollection is accepted exactly when each of its (truthy) members is
    accepted without diagnostics; members need not be Features. Otherwise only
    the generic collection message is reported.
   */
  lemma FeatureCollectionRule(v: Json, diag: bool, ms: seq<Json>)
    requires Supported(v) && HasType(v, FeatureCollection)
    requires Get(v, "features") == Some(JArr(ms))
    requires forall i :: 0 <= i < |ms| ==> Truthy(ms[i])
    ensures forall i :: 0 <= i < |ms| ==> Supported(ms[i])
    ensures Accepts(v, diag) <==> forall i :: 0 <= i < |ms| ==> Accepts(ms[i], false)
    ensures !Accepts(v, diag) ==> Validate(v, diag) == ReturnError(false, diag, Some(BadFeature))
  {
    var r := ValidateCollection(v, "features", diag, NoFeatures, FeaturesNotArray, BadFeature);
    assert Validate(v, diag) == r by {
      FeatureCollectionDispatch(v, diag);
    }
    assert (forall i :: 0 <= i < |ms| ==> Supported(ms[i])) &&
           (r == Plain(true) <==> forall i :: 0 <= i < |ms| ==> Accepts(ms[i], false)) by {
      CollectionMembers(v, "features", diag, NoFeatures, FeaturesNotArray, BadFeature, ms);
    }
  }

  /**
    A GeometryCollection is accepted exactly when each of its (truthy) members
    is accepted without diagnostics; otherwise only the generic message.
   */
  lemma GeometryCollectionRule(v: Json, diag: bool, ms: seq<Json>)
    requires Supported(v) && HasType(v, GeometryCollection)
    requires Get(v, "geometries") == Some(JArr(ms))
    requires forall i :: 0 <= i < |ms| ==> Truthy(ms[i])
    ensures forall i :: 0 <= i < |ms| ==> Supported(ms[i])
    ensures Accepts(v, diag) <==> forall i :: 0 <= i < |ms| ==> Accepts(ms[i], false)
    ensures !Accepts(v, diag) ==> Validate(v, diag) == ReturnError(false, diag, Some(BadGeometry))
  {
    var r := ValidateCollection(v, "geometries", diag, NoGeometries, GeometriesNotArray, BadGeometry);
    assert Validate(v, diag) == r by {
      GeometryCollectionDispatch(v, diag);
    }
    assert (forall i :: 0 <= i < |ms| ==> Supported(ms[i])) &&
           (r == Plain(true) <==> forall i :: 0 <= i < |ms| ==> Accepts(ms[i], false)) by {
      CollectionMembers(v, "geometries", diag, NoGeometries, GeometriesNotArray, BadGeometry, ms);
    }
  }

  // ---------------------------------------------------------------------------
  // Where the diagnostic flag changes acceptance

  /**
    The kinds whose acceptance depends on the diagnostic flag: Polygon,
    MultiLineString, MultiPolygon, and a Feature wrapping one of them.
   */
  ghost predicate ModeSensitive(v: Json)
    decreases v
  {
    var k := TypeKind(v);
    k.Some? &&
    (k.value.Polygon? || k.value.MultiLineString? || k.value.MultiPolygon? ||
     (k.value.Feature? && Get(v, "geometry").Some? && ModeSensitive(Get(v, "geometry").value)))
  }

  /** For every other object the flag changes only the shape of a failure, never the outcome. */
  lemma {:induction false} FlagOnlyShapesFailures(v: Json)
    requires Supported(v) && !ModeSensitive(v)
    ensures Accepts(v, true) <==> Accepts(v, false)
    decreases v
  {
    var t := Get(v, "type");
    var index := TypeIndex(t);
    if !Present(t) || index < 0 {
    } else if index < 6 {
      var c := Get(v, "coordinates");
      if Present(c) && c.value.JArr? {
        var kind := KindAt(index);
        if kind.Point? {
        } else if kind.MultiPoint? {
          MultiPointMembers(c.value.items, true);
          MultiPointMembers(c.value.items, false);
        } else {
          LineStringPointsRule(c.value, true);
          LineStringPointsRule(c.value, false);
        }
      }
    } else if index == 6 {
      var geometry := Get(v, "geometry");
      FeatureRule(v, true);
      FeatureRule(v, false);
      if Present(geometry) && Present(Get(v, "properties")) {
        assert TypeKind(v) == Some(Feature);
        FlagOnlyShapesFailures(geometry.value);
      }
    } else if index == 7 {
      CollectionModes(v, "features", NoFeatures, FeaturesNotArray, BadFeature);
    } else {
      CollectionModes(v, "geometries", NoGeometries, GeometriesNotArray, BadGeometry);
    }
  }
}
