/**
  What the two converters promise: the points they produce, how `toGeoJSON`
  closes polygon rings, that `isGeoJSON` accepts what `toGeoJSON` builds, and
  that `toArray` undoes `toGeoJSON`.
 */
module ConverterFacts {
  import opened Js
  import opened Validator
  import opened ValidatorFacts
  import opened ConverterSpec

  /** A point as the converters produce it: two numbers. */
  predicate NumberPair(p: Json) {
    p.JArr? && |p.items| == 2 && NumberValue(p.items[0]) && NumberValue(p.items[1])
  }

  /** A list of points as the converters produce it. */
  predicate NumberPairs(points: seq<Json>) {
    forall i :: 0 <= i < |points| ==> NumberPair(points[i])
  }

  // ---------------------------------------------------------------------------
  // Swapping coordinates

  /** Swapping reads both coordinates as numbers, so it always yields a number pair. */
  lemma SwapIsPair(point: Json, ns: NumberSyntax)
    ensures NumberPair(Swap(point, ns)) && PositionLike(Swap(point, ns)) && PlainData(Swap(point, ns))
  {
    var r := Swap(point, ns);
    assert At(r, 0) == Some(r.items[0]) && At(r, 1) == Some(r.items[1]);
  }

  /** Swapping twice gives back a pair of numbers. */
  lemma SwapTwice(point: Json, ns: NumberSyntax)
    requires NumberPair(point)
    ensures Swap(Swap(point, ns), ns) == point
  {
    var x, y := point.items[0], point.items[1];
    assert Swap(point, ns) == JArr([y, x]);
    assert Swap(JArr([y, x]), ns) == JArr([x, y]);
    assert point.items == [x, y];
  }

  /** `SwapAll` swaps each point in place: the element-wise reading of the `_.each` loop. */
  lemma {:induction false} SwapAllAt(points: seq<Json>, ns: NumberSyntax)
    ensures forall i :: 0 <= i < |points| ==> SwapAll(points, ns)[i] == Swap(points[i], ns)
  {
    if |points| > 0 {
      var init := points[..|points| - 1];
      SwapAllAt(init, ns);
      assert forall i :: 0 <= i < |init| ==> points[i] == init[i];
    }
  }

  /** Every point `SwapAll` produces is a number pair. */
  lemma SwapAllPairs(points: seq<Json>, ns: NumberSyntax)
    ensures NumberPairs(SwapAll(points, ns))
    ensures forall i :: 0 <= i < |points| ==> PositionLike(SwapAll(points, ns)[i]) && PlainData(SwapAll(points, ns)[i])
  {
    SwapAllAt(points, ns);
    forall i | 0 <= i < |points|
      ensures NumberPair(SwapAll(points, ns)[i]) && PositionLike(SwapAll(points, ns)[i])
      ensures PlainData(SwapAll(points, ns)[i])
    {
      SwapIsPair(points[i], ns);
    }
  }

  /** Swapping a list of number pairs twice gives it back. */
  lemma SwapAllTwice(points: seq<Json>, ns: NumberSyntax)
    requires NumberPairs(points)
    ensures SwapAll(SwapAll(points, ns), ns) == points
  {
    var once := SwapAll(points, ns);
    SwapAllAt(points, ns);
    SwapAllAt(once, ns);
    forall i | 0 <= i < |points| ensures SwapAll(once, ns)[i] == points[i] {
      SwapTwice(points[i], ns);
    }
  }

  /** `SwapLines` swaps the points of each line. */
  lemma {:induction false} SwapLinesAt(lines: seq<Json>, ns: NumberSyntax)
    ensures forall i :: 0 <= i < |lines| ==> SwapLines(lines, ns)[i] == JArr(SwapAll(Elements(lines[i]), ns))
  {
    if |lines| > 0 {
      var init := lines[..|lines| - 1];
      SwapLinesAt(init, ns);
      assert forall i :: 0 <= i < |init| ==> lines[i] == init[i];
    }
  }

  /** `CloseAll` closes each ring. */
  lemma {:induction false} CloseAllAt(rings: seq<Json>, ns: NumberSyntax)
    ensures forall i :: 0 <= i < |rings| ==> CloseAll(rings, ns)[i] == Close(rings[i], ns)
  {
    if |rings| > 0 {
      var init := rings[..|rings| - 1];
      CloseAllAt(init, ns);
      assert forall i :: 0 <= i < |init| ==> rings[i] == init[i];
    }
  }

  /** `SwapPolygons` swaps the points of each ring of each polygon. */
  lemma {:induction false} SwapPolygonsAt(polygons: seq<Json>, ns: NumberSyntax)
    ensures forall i :: 0 <= i < |polygons| ==> SwapPolygons(polygons, ns)[i] == JArr(SwapLines(Elements(polygons[i]), ns))
  {
    if |polygons| > 0 {
      var init := polygons[..|polygons| - 1];
      SwapPolygonsAt(init, ns);
      assert forall i :: 0 <= i < |init| ==> polygons[i] == init[i];
    }
  }

  // ---------------------------------------------------------------------------
  // Closing rings

  /**
    The close test compares the text of the whole ring with the text of its
    last point. With two or more points the ring's text is longer, so the first
    point is always appended, closed ring or not; a one-point ring is left alone.
   */
  lemma CloseAppends(ring: Json, ns: NumberSyntax)
    ensures Close(ring, ns) != ring <==> ring.JArr? && |ring.items| >= 2
    ensures ring.JArr? && |ring.items| >= 2 ==> Close(ring, ns) == JArr(ring.items + [ring.items[0]])
  {
    if ring.JArr? && |ring.items| == 1 {
      OnePointText(ring, ns);
    } else if ring.JArr? && |ring.items| >= 2 {
      LongerText(ring, ns);
      assert |Close(ring, ns).items| == |ring.items| + 1;
    }
  }

  /** The text of a one-point ring is the text of that point. */
  lemma OnePointText(ring: Json, ns: NumberSyntax)
    requires ring.JArr? && |ring.items| == 1
    ensures ToText(ring, ns) == ToText(ring.items[0], ns)
  {
    var parts := seq(1, i requires 0 <= i < 1 => ToText(ring.items[i], ns));
    assert ToText(ring, ns) == Join(parts);
  }

  /** The text of a ring of two or more points is longer than that of its last point. */
  lemma LongerText(ring: Json, ns: NumberSyntax)
    requires ring.JArr? && |ring.items| >= 2
    ensures |ToText(ring, ns)| > |ToText(ring.items[|ring.items| - 1], ns)|
  {
    var items := ring.items;
    var parts := seq(|items|, i requires 0 <= i < |items| => ToText(items[i], ns));
    assert ToText(ring, ns) == Join(parts);
    assert parts[|parts| - 1] == ToText(items[|items| - 1], ns);
  }

  /** The caller's single ring, once `toGeoJSON(ring, "polygon")` has run: its first point appended. */
  lemma WrappedArgumentAfter(ring: Json, ns: NumberSyntax)
    requires Wraps(ring) && |ring.items| >= 3
    ensures ArgumentAfter(ring, ns) == JArr(ring.items + [ring.items[0]])
  {
    assert PolygonRings(ring) == [ring];
    assert Reached([ring], 3) == 1;
    CloseAppends(ring, ns);
  }

  /**
    The caller's list of rings after `toGeoJSON(rings, "polygon")`: the same
    number of members, every ring the walk reached closed in place, the rest
    untouched.
   */
  lemma ListArgumentAfter(input: Json, ns: NumberSyntax)
    requires input.JArr? && !Wraps(input)
    ensures var after := ArgumentAfter(input, ns);
            var k := Reached(input.items, 3);
            after.JArr? && |after.items| == |input.items| &&
            (forall i :: 0 <= i < k ==> after.items[i] == Close(input.items[i], ns)) &&
            (forall i :: k <= i < |input.items| ==> after.items[i] == input.items[i])
  {
    var k := Reached(input.items, 3);
    assert PolygonRings(input) == input.items;
    CloseAllAt(input.items[..k], ns);
  }

  // ---------------------------------------------------------------------------
  // What `toGeoJSON` builds is a GeoJSON object

  /** Plain data holds no object and no `null` at any depth. */
  lemma {:induction false} PlainIsNested(v: Json, depth: nat)
    requires PlainData(v)
    ensures ObjectFree(v) && NullFreeAt(v, depth)
  {
    if v.JArr? {
      forall i | 0 <= i < |v.items| ensures ObjectFree(v.items[i]) && (depth > 1 ==> NullFreeAt(v.items[i], depth - 1)) {
        PlainIsNested(v.items[i], if depth > 1 then depth - 1 else 0);
      }
    }
  }

  /** The elements of plain data are plain data, so none of them is `null`. */
  lemma ElementsPlain(v: Json)
    requires PlainData(v)
    ensures forall j :: 0 <= j < |Elements(v)| ==> PlainData(Elements(v)[j])
    ensures NullFreePoints(v)
  {
  }

  /** Flattening plain data gives plain data. */
  lemma {:induction false} FlattenPlain(items: seq<Json>)
    requires forall i :: 0 <= i < |items| ==> PlainData(items[i])
    ensures forall j :: 0 <= j < |FlattenItems(items)| ==> PlainData(FlattenItems(items)[j])
  {
    if |items| > 0 {
      if items[0].JArr? {
        FlattenPlain(items[0].items);
      }
      FlattenPlain(items[1..]);
    }
  }

  /** Plain data is within the domain of every branch of `toGeoJSON` save Polygon, which also needs its reached rings to be arrays. */
  lemma PlainInput(input: Json, kind: Option<string>)
    requires PlainData(input)
    requires Case(KindName(kind)) == Some(Polygon) ==>
               forall i :: 0 <= i < Reached(PolygonRings(input), 3) ==> PolygonRings(input)[i].JArr?
    ensures GeoJSONInput(input, kind)
  {
    PlainIsNested(input, 0);
    ElementsPlain(input);
    if input.JArr? {
      FlattenPlain(input.items);
    }
    var members := Elements(input);
    forall i | 0 <= i < |members| ensures NullFreePoints(members[i]) && LinesInput3(Elements(members[i])) {
      ElementsPlain(members[i]);
      var rings := Elements(members[i]);
      forall j | 0 <= j < |rings| ensures NullFreePoints(rings[j]) {
        ElementsPlain(rings[j]);
      }
    }
    if Wraps(input) {
      assert PolygonRings(input) == [input];
    }
  }

  /** A geometry object built from plain coordinates is within the validator's domain. */
  lemma GeometrySupported(kind: string, coordinates: Json)
    requires PlainData(coordinates)
    ensures Supported(Geometry(kind, coordinates))
  {
    PlainIsNested(coordinates, WalkDepth(kind));
  }

  /** The lines `SwapLines` produces are lists of number pairs. */
  lemma SwapLinesPlain(lines: seq<Json>, ns: NumberSyntax)
    ensures PlainData(JArr(SwapLines(lines, ns)))
    ensures forall i :: 0 <= i < |lines| ==> !BadLine(SwapLines(lines, ns)[i])
    ensures forall i :: 0 <= i < |lines| ==> RingOfPairs(SwapLines(lines, ns)[i])
  {
    SwapLinesAt(lines, ns);
    forall i | 0 <= i < |lines|
      ensures PlainData(SwapLines(lines, ns)[i]) && !BadLine(SwapLines(lines, ns)[i])
      ensures RingOfPairs(SwapLines(lines, ns)[i])
    {
      var points := SwapAll(Elements(lines[i]), ns);
      SwapAllPairs(Elements(lines[i]), ns);
      PairsAreLine(points);
    }
  }

  /** A list whose every member is an array of at least two entries. */
  predicate RingOfPairs(v: Json) {
    v.JArr? && forall i :: 0 <= i < |v.items| ==> v.items[i].JArr? && |v.items[i].items| == 2
  }

  /** `_isLineString` accepts any list of positions. */
  lemma PairsAreLine(points: seq<Json>)
    requires NumberPairs(points)
    ensures !BadLine(JArr(points)) && RingOfPairs(JArr(points))
  {
    forall i | 0 <= i < |points| ensures PositionLike(points[i]) {
      assert At(points[i], 0) == Some(points[i].items[0]) && At(points[i], 1) == Some(points[i].items[1]);
    }
    assert FindFirst(PointFlags(points)).None?;
  }

  /** A list of number pairs is plain data. */
  lemma PairsPlain(points: seq<Json>)
    requires NumberPairs(points)
    ensures PlainData(JArr(points))
  {
    forall i | 0 <= i < |points| ensures PlainData(points[i]) {
      var p := points[i];
      assert PlainData(p.items[0]) && PlainData(p.items[1]);
    }
  }

  /** A list of pairs is not itself a position, so it is never a closed flat "ring". */
  lemma PairsNotPosition(v: Json)
    requires RingOfPairs(v)
    ensures !PositionLike(v) && !ClosedFlat(v) && Truthy(v)
  {
    if |v.items| > 0 {
      assert At(v, 0) == Some(v.items[0]);
    }
  }

  /** A ring of at least three points, closed by `toGeoJSON` and swapped, is what `_isLinearRing` wants. */
  lemma ClosedRingShaped(ring: Json, ns: NumberSyntax)
    requires ring.JArr? && |ring.items| >= 3
    ensures var s := JArr(SwapAll(Elements(Close(ring, ns)), ns));
            RingShaped(s) && !ClosedFlat(s) && RingOfPairs(s)
  {
    CloseAppends(ring, ns);
    var points := ring.items + [ring.items[0]];
    var swapped := SwapAll(points, ns);
    var s := JArr(swapped);
    SwapAllAt(points, ns);
    SwapAllPairs(points, ns);
    assert Last(s) == Some(Swap(ring.items[0], ns)) == At(s, 0);
    PairsAreLine(swapped);
    PairsNotPosition(s);
  }

  /**
    `toGeoJSON(point)` builds a Point from the two flattened values exchanged,
    `[x, y]` becoming `[y, x]` for numbers, and `isGeoJSON` accepts it in both modes.
   */
  lemma PointOutput(input: Json, kind: Option<string>, ns: NumberSyntax, diag: bool)
    requires GeoJSONInput(input, kind) && Case(KindName(kind)) == Some(Point)
    ensures GeoJSONOf(input, kind, ns).Done? <==> |Flatten(input)| == 2
    ensures var flat := Flatten(input);
            |flat| == 2 ==> GeoJSONOf(input, kind, ns) == Done(Geometry("Point", Swap(JArr(flat), ns)))
    ensures var flat := Flatten(input);
            |flat| == 2 && NumberValue(flat[0]) && NumberValue(flat[1]) ==>
              GeoJSONOf(input, kind, ns) == Done(Geometry("Point", JArr([flat[1], flat[0]])))
    ensures GeoJSONOf(input, kind, ns).Done? ==>
              var g := GeoJSONOf(input, kind, ns).value;
              Supported(g) && HasType(g, Point) && Accepts(g, diag)
  {
    var flat := Flatten(input);
    if |flat| == 2 {
      var c := [ParseFloat(Some(flat[1]), ns), ParseFloat(Some(flat[0]), ns)];
      var g := Geometry("Point", JArr(c));
      assert GeoJSONOf(input, kind, ns) == Done(g);
      assert JArr(c) == Swap(JArr(flat), ns) by {
        assert At(JArr(flat), 0) == Some(flat[0]) && At(JArr(flat), 1) == Some(flat[1]);
      }
      GeometrySupported("Point", JArr(c));
      PointRule(g, diag, c);
    }
  }

  /** An object without a `length` key flattens to nothing, so the point branch reports it. */
  lemma ObjectIsNoPoint(input: Json, kind: Option<string>, ns: NumberSyntax)
    requires input.JObj? && "length" !in input.fields && Case(KindName(kind)) == Some(Point)
    ensures GeoJSONInput(input, kind) && GeoJSONOf(input, kind, ns) == Fail(PointCountMessage)
  {
  }

  /** `toGeoJSON([1, null])` is the Point `[NaN, 1]`: `parseFloat(null)` is NaN. */
  lemma NullCoordinateIsNaN(ns: NumberSyntax)
    ensures var input := JArr([JNum(1.0), JNull]);
            GeoJSONInput(input, None) && GeoJSONOf(input, None, ns) == Done(Geometry("Point", JArr([JNaN, JNum(1.0)])))
  {
    assert Flatten(JArr([JNum(1.0), JNull])) == [JNum(1.0), JNull];
  }

  /** `toGeoJSON({"not": "valid"})` is the Point error. */
  lemma NotValidIsNoPoint(ns: NumberSyntax)
    ensures var input := JObj(map["not" := JStr("valid")]);
            GeoJSONInput(input, None) && GeoJSONOf(input, None, ns) == Fail(PointCountMessage)
  {
    ObjectIsNoPoint(JObj(map["not" := JStr("valid")]), None, ns);
  }

  /**
    `toGeoJSON(points, "linestring")` always builds a LineString of the points, each
    with its coordinates exchanged; `isGeoJSON` accepts it exactly when it has
    two points or more.
   */
  lemma LineStringOutput(input: Json, kind: Option<string>, ns: NumberSyntax, diag: bool)
    requires GeoJSONInput(input, kind) && Case(KindName(kind)) == Some(LineString)
    ensures GeoJSONOf(input, kind, ns).Done?
    ensures var points := Elements(input);
            var coordinates := Get(GeoJSONOf(input, kind, ns).value, "coordinates");
            coordinates.Some? && coordinates.value.JArr? && |coordinates.value.items| == |points| &&
            forall i :: 0 <= i < |points| ==> coordinates.value.items[i] == Swap(points[i], ns)
    ensures var g := GeoJSONOf(input, kind, ns).value;
            Supported(g) && HasType(g, LineString) &&
            (Accepts(g, diag) <==> |Elements(input)| >= 2) &&
            (|Elements(input)| < 2 ==> Validate(g, diag) == ReturnError(false, diag, Some(ShortLineString)))
  {
    var c := SwapAll(Elements(input), ns);
    var g := Geometry("LineString", JArr(c));
    assert GeoJSONOf(input, kind, ns) == Done(g);
    SwapAllAt(Elements(input), ns);
    SwapAllPairs(Elements(input), ns);
    GeometrySupported("LineString", JArr(c));
    LineStringRule(g, diag, c);
  }

  /**
    `toGeoJSON(points, "multipoint")` always builds a MultiPoint of the points, each
    with its coordinates exchanged; `isGeoJSON` accepts it exactly when it has
    two points or more.
   */
  lemma MultiPointOutput(input: Json, kind: Option<string>, ns: NumberSyntax, diag: bool)
    requires GeoJSONInput(input, kind) && Case(KindName(kind)) == Some(MultiPoint)
    ensures GeoJSONOf(input, kind, ns).Done?
    ensures var points := Elements(input);
            var coordinates := Get(GeoJSONOf(input, kind, ns).value, "coordinates");
            coordinates.Some? && coordinates.value.JArr? && |coordinates.value.items| == |points| &&
            forall i :: 0 <= i < |points| ==> coordinates.value.items[i] == Swap(points[i], ns)
    ensures var g := GeoJSONOf(input, kind, ns).value;
            Supported(g) && HasType(g, MultiPoint) &&
            (Accepts(g, diag) <==> |Elements(input)| >= 2) &&
            (|Elements(input)| < 2 ==> Validate(g, diag) == ReturnError(false, diag, Some(ShortMultiPoint)))
  {
    var c := SwapAll(Elements(input), ns);
    var g := Geometry("MultiPoint", JArr(c));
    assert GeoJSONOf(input, kind, ns) == Done(g);
    SwapAllAt(Elements(input), ns);
    SwapAllPairs(Elements(input), ns);
    GeometrySupported("MultiPoint", JArr(c));
    MultiPointRule(g, diag, c);
  }

  /**
    A MultiLineString from `toGeoJSON` is accepted by `isGeoJSON` in both modes
    exactly when it has two lines or more.
   */
  lemma MultiLineStringOutput(input: Json, kind: Option<string>, ns: NumberSyntax, diag: bool)
    requires GeoJSONInput(input, kind) && Case(KindName(kind)) == Some(MultiLineString)
    ensures GeoJSONOf(input, kind, ns).Done? ==>
              var g := GeoJSONOf(input, kind, ns).value;
              Supported(g) && HasType(g, MultiLineString) &&
              (Accepts(g, diag) <==> |Elements(input)| >= 2)
  {
    var lines := Elements(input);
    if Reached(lines, 2) == |lines| {
      var c := SwapLines(lines, ns);
      var g := Geometry("MultiLineString", JArr(c));
      assert GeoJSONOf(input, kind, ns) == Done(g);
      SwapLinesPlain(lines, ns);
      GeometrySupported("MultiLineString", JArr(c));
      MultiLineStringRule(g, c);
    }
  }

  /** One ring of a Polygon from `toGeoJSON`: closed, swapped, at least four points. */
  lemma PolygonRingAt(rings: seq<Json>, i: nat, ns: NumberSyntax)
    requires i < Reached(rings, 3) && rings[i].JArr?
    ensures var c := SwapLines(CloseAll(rings, ns), ns);
            RingShaped(c[i]) && !ClosedFlat(c[i]) && Truthy(c[i])
  {
    SwapLinesAt(CloseAll(rings, ns), ns);
    CloseAllAt(rings, ns);
    ReachedLong(rings, i, 3);
    ClosedRingShaped(rings[i], ns);
  }

  /** The rings of a Polygon from `toGeoJSON`: closed, swapped, at least four points each. */
  lemma PolygonCoordinates(rings: seq<Json>, ns: NumberSyntax)
    requires Reached(rings, 3) == |rings| && forall i :: 0 <= i < |rings| ==> rings[i].JArr?
    ensures var c := SwapLines(CloseAll(rings, ns), ns);
            PlainData(JArr(c)) &&
            forall i :: 0 <= i < |c| ==> RingShaped(c[i]) && !ClosedFlat(c[i]) && Truthy(c[i])
  {
    SwapLinesPlain(CloseAll(rings, ns), ns);
    forall i | 0 <= i < |rings| {
      PolygonRingAt(rings, i, ns);
    }
  }

  /** A Polygon from `toGeoJSON` is accepted by `isGeoJSON` in both modes. */
  lemma PolygonOutput(input: Json, kind: Option<string>, ns: NumberSyntax, diag: bool)
    requires GeoJSONInput(input, kind) && Case(KindName(kind)) == Some(Polygon)
    ensures GeoJSONOf(input, kind, ns).Done? ==>
              var g := GeoJSONOf(input, kind, ns).value;
              Supported(g) && HasType(g, Polygon) && Accepts(g, diag)
  {
    var rings := PolygonRings(input);
    assert GeoJSONOf(input, kind, ns) == PolygonGeometry(input, ns);
    if Reached(rings, 3) == |rings| {
      var c := SwapLines(CloseAll(rings, ns), ns);
      var g := Geometry("Polygon", JArr(c));
      PolygonCoordinates(rings, ns);
      GeometrySupported("Polygon", JArr(c));
      PolygonRule(g, c);
    }
  }

  /** The polygons of a MultiPolygon from `toGeoJSON`: lists of lists of number pairs. */
  lemma MultiPolygonCoordinates(polygons: seq<Json>, ns: NumberSyntax)
    ensures var c := SwapPolygons(polygons, ns);
            PlainData(JArr(c)) && !HasClosedFlatRing(c)
  {
    var c := SwapPolygons(polygons, ns);
    SwapPolygonsAt(polygons, ns);
    forall i | 0 <= i < |c|
      ensures PlainData(c[i])
      ensures forall j :: 0 <= j < |Elements(c[i])| ==> !ClosedFlat(Elements(c[i])[j])
    {
      var lines := Elements(polygons[i]);
      SwapLinesPlain(lines, ns);
      forall j | 0 <= j < |Elements(c[i])| ensures !ClosedFlat(Elements(c[i])[j]) {
        PairsNotPosition(Elements(c[i])[j]);
      }
    }
  }

  /** A MultiPolygon from `toGeoJSON` is accepted by `isGeoJSON` in both modes. */
  lemma MultiPolygonOutput(input: Json, kind: Option<string>, ns: NumberSyntax, diag: bool)
    requires GeoJSONInput(input, kind) && Case(KindName(kind)) == Some(MultiPolygon)
    ensures GeoJSONOf(input, kind, ns).Done? ==>
              var g := GeoJSONOf(input, kind, ns).value;
              Supported(g) && HasType(g, MultiPolygon) && Accepts(g, diag)
  {
    var polygons := Elements(input);
    assert GeoJSONOf(input, kind, ns) == MultiPolygonGeometry(input, ns);
    if !AnyShortRing(polygons) {
      var c := SwapPolygons(polygons, ns);
      var g := Geometry("MultiPolygon", JArr(c));
      MultiPolygonCoordinates(polygons, ns);
      GeometrySupported("MultiPolygon", JArr(c));
      MultiPolygonRule(g, c);
    }
  }

  // ---------------------------------------------------------------------------
  // `toArray` undoes `toGeoJSON`

  lemma PointCase() ensures Case(Lower("Point")) == Some(Point) {
    assert Lower("Point") == "point";
  }

  lemma LineStringCase() ensures Case(Lower("LineString")) == Some(LineString) {
    assert Lower("LineString") == "linestring";
  }

  lemma MultiPointCase() ensures Case(Lower("MultiPoint")) == Some(MultiPoint) {
    assert Lower("MultiPoint") == "multipoint";
  }

  lemma PolygonCase() ensures Case(Lower("Polygon")) == Some(Polygon) {
    assert Lower("Polygon") == "polygon";
  }

  lemma MultiLineStringCase() ensures Case(Lower("MultiLineString")) == Some(MultiLineString) {
    assert Lower("MultiLineString") == "multilinestring";
  }

  lemma MultiPolygonCase() ensures Case(Lower("MultiPolygon")) == Some(MultiPolygon) {
    assert Lower("MultiPolygon") == "multipolygon";
  }

  /** The type name of each geometry kind, lowercased, selects that kind's `case`. */
  lemma CaseOfName(k: Kind)
    requires GeometryKind(k)
    ensures Case(Lower(Name(k))) == Some(k)
  {
    match k
    case Point => PointCase();
    case LineString => LineStringCase();
    case MultiPoint => MultiPointCase();
    case Polygon => PolygonCase();
    case MultiLineString => MultiLineStringCase();
    case MultiPolygon => MultiPolygonCase();
  }

  /** `toGeoJSON` with kind "polygon" in any letter case takes the Polygon branch. */
  lemma GeoJSONOfPolygon(input: Json, kind: Option<string>, ns: NumberSyntax)
    requires GeoJSONInput(input, kind) && Case(KindName(kind)) == Some(Polygon)
    ensures GeoJSONOf(input, kind, ns) == PolygonGeometry(input, ns)
  {
  }

  /** `toGeoJSON` with kind "multilinestring" in any letter case takes the MultiLineString branch. */
  lemma GeoJSONOfMultiLineString(input: Json, kind: Option<string>, ns: NumberSyntax)
    requires GeoJSONInput(input, kind) && Case(KindName(kind)) == Some(MultiLineString)
    ensures GeoJSONOf(input, kind, ns) == MultiLineStringGeometry(input, ns)
  {
  }

  /** `toArray` on the object `toGeoJSON` builds: the branch of its `type`, on its `coordinates`. */
  lemma ArrayOfGeometry(k: Kind, c: seq<Json>, ns: NumberSyntax)
    requires GeometryKind(k) && PlainData(JArr(c))
    ensures ArrayInput(Geometry(Name(k), JArr(c)))
    ensures ArrayOf(Geometry(Name(k), JArr(c)), ns) ==
              match k
              case Point => Done(Swap(JArr(c), ns))
              case LineString => LineStringArray(c, ns)
              case MultiPoint => Done(JArr(SwapAll(c, ns)))
              case Polygon => PolygonArray(c, ns)
              case MultiLineString => MultiLineStringArray(c, ns)
              case _ => MultiPolygonArray(c, ns)
  {
    var g := Geometry(Name(k), JArr(c));
    assert Present(Get(g, "type")) && Present(Get(g, "coordinates")) && Elements(JArr(c)) == c;
    assert Case(Lower(Get(g, "type").value.s)) == Some(k) by {
      CaseOfName(k);
    }
  }

  /** `toArray` on a Polygon object takes the Polygon branch. */
  lemma ArrayOfPolygon(c: seq<Json>, ns: NumberSyntax)
    requires PlainData(JArr(c))
    ensures ArrayInput(Geometry("Polygon", JArr(c))) && ArrayOf(Geometry("Polygon", JArr(c)), ns) == PolygonArray(c, ns)
  {
    ArrayOfGeometry(Polygon, c, ns);
  }

  /** `toArray` on a MultiLineString object takes the MultiLineString branch. */
  lemma ArrayOfMultiLineString(c: seq<Json>, ns: NumberSyntax)
    requires PlainData(JArr(c))
    ensures ArrayInput(Geometry("MultiLineString", JArr(c))) && ArrayOf(Geometry("MultiLineString", JArr(c)), ns) == MultiLineStringArray(c, ns)
  {
    ArrayOfGeometry(MultiLineString, c, ns);
  }

  /** The `typeof ln === 'object'` walk of `toArray`'s LineString branch passes exactly when every member is an array. */
  lemma {:induction false} AllArraysIff(items: seq<Json>)
    ensures AllArrays(items) <==> forall i :: 0 <= i < |items| ==> items[i].JArr?
  {
    if |items| > 0 {
      AllArraysIff(items[1..]);
      assert forall i :: 1 <= i < |items| ==> items[i] == items[1..][i - 1];
    }
  }

  /** The `!a.length` walk of `toArray`'s MultiLineString branch passes exactly when every member has a length. */
  lemma {:induction false} AllHaveLengthIff(items: seq<Json>)
    ensures AllHaveLength(items) <==> forall i :: 0 <= i < |items| ==> !NoLength(items[i])
  {
    if |items| > 0 {
      AllHaveLengthIff(items[1..]);
      assert forall i :: 1 <= i < |items| ==> items[i] == items[1..][i - 1];
    }
  }

  /** A walk that meets no short member reaches the end. */
  lemma {:induction false} ReachedAllLong(members: seq<Json>, n: nat)
    requires forall i :: 0 <= i < |members| ==> !ShorterThan(members[i], n)
    ensures Reached(members, n) == |members|
  {
    if |members| > 0 {
      ReachedAllLong(members[1..], n);
    }
  }

  /** A line of number pairs. */
  predicate PairLine(line: Json) {
    line.JArr? && NumberPairs(line.items)
  }

  /** Swapping the points of lines of number pairs twice gives them back. */
  lemma SwapLinesTwice(lines: seq<Json>, ns: NumberSyntax)
    requires forall i :: 0 <= i < |lines| ==> PairLine(lines[i])
    ensures SwapLines(SwapLines(lines, ns), ns) == lines
  {
    forall i | 0 <= i < |lines| ensures SwapLines(SwapLines(lines, ns), ns)[i] == lines[i] {
      SwapLineTwice(lines, i, ns);
    }
  }

  lemma SwapLineTwice(lines: seq<Json>, i: nat, ns: NumberSyntax)
    requires i < |lines| && PairLine(lines[i])
    ensures SwapLines(SwapLines(lines, ns), ns)[i] == lines[i]
  {
    var once := SwapLines(lines, ns);
    SwapLinesAt(lines, ns);
    SwapLinesAt(once, ns);
    SwapAllTwice(lines[i].items, ns);
  }

  /** `toArray(toGeoJSON([x, y]))` is `[x, y]`. */
  lemma PointRoundTrip(point: Json, kind: Option<string>, ns: NumberSyntax)
    requires NumberPair(point) && Case(KindName(kind)) == Some(Point)
    ensures GeoJSONInput(point, kind) && GeoJSONOf(point, kind, ns).Done?
    ensures var g := GeoJSONOf(point, kind, ns).value;
            ArrayInput(g) && ArrayOf(g, ns) == Done(point)
  {
    var x, y := point.items[0], point.items[1];
    PairsPlain([point]);
    PlainInput(point, kind);
    assert Flatten(point) == [x, y];
    var g := Geometry("Point", JArr([y, x]));
    assert GeoJSONOf(point, kind, ns) == Done(g);
    ArrayOfGeometry(Point, [y, x], ns);
    assert point.items == [x, y];
  }

  /** `toArray(toGeoJSON(points, "linestring"))` gives the points back. */
  lemma LineStringRoundTrip(points: seq<Json>, kind: Option<string>, ns: NumberSyntax)
    requires NumberPairs(points) && Case(KindName(kind)) == Some(LineString)
    ensures GeoJSONInput(JArr(points), kind) && GeoJSONOf(JArr(points), kind, ns).Done?
    ensures var g := GeoJSONOf(JArr(points), kind, ns).value;
            ArrayInput(g) && ArrayOf(g, ns) == Done(JArr(points))
  {
    var c := SwapAll(points, ns);
    var g := Geometry("LineString", JArr(c));
    PairsPlain(points);
    PlainInput(JArr(points), kind);
    assert GeoJSONOf(JArr(points), kind, ns) == Done(g);
    SwapAllPairs(points, ns);
    AllArraysIff(c);
    SwapAllTwice(points, ns);
    ArrayOfGeometry(LineString, c, ns);
  }

  /** `toArray(toGeoJSON(points, "multipoint"))` gives the points back. */
  lemma MultiPointRoundTrip(points: seq<Json>, kind: Option<string>, ns: NumberSyntax)
    requires NumberPairs(points) && Case(KindName(kind)) == Some(MultiPoint)
    ensures GeoJSONInput(JArr(points), kind) && GeoJSONOf(JArr(points), kind, ns).Done?
    ensures var g := GeoJSONOf(JArr(points), kind, ns).value;
            ArrayInput(g) && ArrayOf(g, ns) == Done(JArr(points))
  {
    var c := SwapAll(points, ns);
    var g := Geometry("MultiPoint", JArr(c));
    PairsPlain(points);
    PlainInput(JArr(points), kind);
    assert GeoJSONOf(JArr(points), kind, ns) == Done(g);
    SwapAllPairs(points, ns);
    SwapAllTwice(points, ns);
    ArrayOfGeometry(MultiPoint, c, ns);
  }

  /** Lines of number pairs are plain data. */
  lemma LinesPlain(lines: seq<Json>)
    requires forall i :: 0 <= i < |lines| ==> PairLine(lines[i])
    ensures PlainData(JArr(lines))
  {
    forall i | 0 <= i < |lines| ensures PlainData(lines[i]) {
      PairsPlain(lines[i].items);
    }
  }

  /** Lines of two points or more keep a non-zero `length` when swapped. */
  lemma SwapLinesHaveLength(lines: seq<Json>, ns: NumberSyntax)
    requires forall i :: 0 <= i < |lines| ==> lines[i].JArr? && |lines[i].items| >= 2
    ensures AllHaveLength(SwapLines(lines, ns))
  {
    SwapLinesAt(lines, ns);
    AllHaveLengthIff(SwapLines(lines, ns));
  }

  /** `toArray`'s MultiLineString branch undoes the swap of `toGeoJSON`'s. */
  lemma MultiLineStringArrayTrip(lines: seq<Json>, ns: NumberSyntax)
    requires forall i :: 0 <= i < |lines| ==> PairLine(lines[i]) && |lines[i].items| >= 2
    ensures MultiLineStringArray(SwapLines(lines, ns), ns) == Done(JArr(lines))
  {
    SwapLinesHaveLength(lines, ns);
    SwapLinesTwice(lines, ns);
  }

  /** `toArray(toGeoJSON(lines, "multilinestring"))` gives the lines back when each has two points or more. */
  lemma MultiLineStringRoundTrip(lines: seq<Json>, kind: Option<string>, ns: NumberSyntax)
    requires Case(KindName(kind)) == Some(MultiLineString)
    requires forall i :: 0 <= i < |lines| ==> PairLine(lines[i]) && |lines[i].items| >= 2
    ensures GeoJSONInput(JArr(lines), kind) && GeoJSONOf(JArr(lines), kind, ns).Done?
    ensures var g := GeoJSONOf(JArr(lines), kind, ns).value;
            ArrayInput(g) && ArrayOf(g, ns) == Done(JArr(lines))
  {
    ReachedAllLong(lines, 2);
    LinesPlain(lines);
    PlainInput(JArr(lines), kind);
    GeoJSONOfMultiLineString(JArr(lines), kind, ns);
    MultiLineStringArrayTrip(lines, ns);
    SwapLinesPlain(lines, ns);
    ArrayOfMultiLineString(SwapLines(lines, ns), ns);
  }

  /** `SwapAll` of a ring with its closing point is the swapped ring with the swapped closing point. */
  lemma SwapAllSnoc(points: seq<Json>, last: Json, ns: NumberSyntax)
    ensures SwapAll(points + [last], ns) == SwapAll(points, ns) + [Swap(last, ns)]
  {
    assert (points + [last])[..|points|] == points;
  }

  /**
    A ring of at least three number pairs, closed and swapped by `toGeoJSON`,
    passes `toArray`'s three ring checks, and stripping it gives the ring back.
   */
  lemma ClosedRingTrip(ring: Json, ns: NumberSyntax)
    requires PairLine(ring) && |ring.items| >= 3
    ensures var s := JArr(SwapAll(Elements(Close(ring, ns)), ns));
            RingProblem(s, ns).None? && Stripped(s, ns) == ring
  {
    var swapped := SwapAll(ring.items, ns);
    var points := swapped + [Swap(ring.items[0], ns)];
    SwapClosed(ring, ns);
    assert points[0] == points[|points| - 1] by {
      SwapAllAt(ring.items, ns);
    }
    assert points[..|points| - 1] == swapped;
    SwapAllTwice(ring.items, ns);
  }

  /** Closing a ring of two or more points and swapping it swaps the ring and then appends its swapped first point. */
  lemma SwapClosed(ring: Json, ns: NumberSyntax)
    requires ring.JArr? && |ring.items| >= 2
    ensures SwapAll(Elements(Close(ring, ns)), ns) == SwapAll(ring.items, ns) + [Swap(ring.items[0], ns)]
  {
    CloseAppends(ring, ns);
    SwapAllSnoc(ring.items, ring.items[0], ns);
  }

  /** A list of number pairs of at least three points is a single ring `toGeoJSON` wraps. */
  lemma RingIsWrapped(ring: Json)
    requires PairLine(ring) && |ring.items| >= 3
    ensures Wraps(ring) && PolygonRings(ring) == [ring] && Reached([ring], 3) == 1 && PolygonInput(ring)
  {
    assert ring.items[0].items[0] == ring.items[0].items[0];
  }

  /** `toArray`'s Polygon branch on rings closed and swapped by `toGeoJSON`: the last ring, as it was. */
  lemma PolygonArrayTrip(rings: seq<Json>, ns: NumberSyntax)
    requires |rings| > 0
    requires forall i :: 0 <= i < |rings| ==> PairLine(rings[i]) && |rings[i].items| >= 3
    ensures PolygonArray(SwapLines(CloseAll(rings, ns), ns), ns) == Done(rings[|rings| - 1])
  {
    var c := SwapLines(CloseAll(rings, ns), ns);
    assert |c| == |rings| && forall i :: 0 <= i < |c| ==> RingProblem(c[i], ns).None? && Stripped(c[i], ns) == rings[i] by {
      SwapLinesAt(CloseAll(rings, ns), ns);
      CloseAllAt(rings, ns);
      forall i | 0 <= i < |c| ensures RingProblem(c[i], ns).None? && Stripped(c[i], ns) == rings[i] {
        ClosedRingTrip(rings[i], ns);
      }
    }
    assert PolygonProblem(c, ns).None?;
  }

  /**
    `toArray(toGeoJSON(ring, "polygon"))` gives back the ring as it was before
    the call (the call itself appends the first point to the caller's ring).
   */
  lemma PolygonRoundTrip(ring: Json, kind: Option<string>, ns: NumberSyntax)
    requires Case(KindName(kind)) == Some(Polygon)
    requires PairLine(ring) && |ring.items| >= 3
    ensures GeoJSONInput(ring, kind) && GeoJSONOf(ring, kind, ns).Done?
    ensures var g := GeoJSONOf(ring, kind, ns).value;
            ArrayInput(g) && ArrayOf(g, ns) == Done(ring)
    ensures ArgumentAfter(ring, ns) == JArr(ring.items + [ring.items[0]])
  {
    RingIsWrapped(ring);
    PairsPlain(ring.items);
    PlainInput(ring, kind);
    GeoJSONOfPolygon(ring, kind, ns);
    PolygonCoordinates([ring], ns);
    PolygonArrayTrip([ring], ns);
    ArrayOfPolygon(SwapLines(CloseAll([ring], ns), ns), ns);
    WrappedArgumentAfter(ring, ns);
  }

  /**
    Given several rings, `toArray(toGeoJSON(rings, "polygon"))` keeps only the
    last ring: `toArray` rebinds its result to each stripped ring in turn.
   */
  lemma PolygonKeepsLastRing(rings: seq<Json>, kind: Option<string>, ns: NumberSyntax)
    requires Case(KindName(kind)) == Some(Polygon) && |rings| > 0
    requires forall i :: 0 <= i < |rings| ==> PairLine(rings[i]) && |rings[i].items| >= 3
    ensures GeoJSONInput(JArr(rings), kind) && GeoJSONOf(JArr(rings), kind, ns).Done?
    ensures var g := GeoJSONOf(JArr(rings), kind, ns).value;
            ArrayInput(g) && ArrayOf(g, ns) == Done(rings[|rings| - 1])
  {
    var input := JArr(rings);
    assert !Wraps(input) by {
      assert rings[0].items[0].JArr?;
    }
    assert PolygonRings(input) == rings;
    ReachedAllLong(rings, 3);
    LinesPlain(rings);
    PlainInput(input, kind);
    GeoJSONOfPolygon(input, kind, ns);
    PolygonCoordinates(rings, ns);
    PolygonArrayTrip(rings, ns);
    ArrayOfPolygon(SwapLines(CloseAll(rings, ns), ns), ns);
  }
}
