/**
  `toGeoJSON` and `toArray` as the loops they are: `_.each` and `_.find` walks
  that push onto result arrays and record an error, then return the error if
  one was recorded. Each method is proved to compute the function of the same
  branch in module ConverterSpec.
 */
module Converter {
  import opened Js
  import opened Validator
  import opened ConverterSpec

  /**
    The caller's reference to the `array` passed to `toGeoJSON`: the polygon
    branch pushes a closing point onto the rings inside it.
   */
  class Argument {
    var value: Json

    constructor (value: Json)
      ensures this.value == value
    {
      this.value := value;
    }
  }

  /** `_.each(points, function (a) { arr.push([parseFloat(a[1]), parseFloat(a[0])]); })`. */
  method SwapPoints(points: seq<Json>, ns: NumberSyntax) returns (arr: seq<Json>)
    ensures arr == SwapAll(points, ns)
  {
    arr := [];
    var i := 0;
    while i < |points|
      invariant 0 <= i <= |points|
      invariant arr == SwapAll(points[..i], ns)
    {
      var a := points[i];
      arr := arr + [JArr([ParseFloat(At(a, 1), ns), ParseFloat(At(a, 0), ns)])];
      assert points[..i + 1][..i] == points[..i];
      i := i + 1;
    }
    assert points[..i] == points;
  }

  // ---------------------------------------------------------------------------
  // toGeoJSON

  /**
    The polygon branch: wrap a single ring, then walk the rings until one is
    shorter than 3, closing each ring in the caller's array and swapping its points.
   */
  method PolygonToGeoJSON(arg: Argument, ns: NumberSyntax) returns (r: Outcome)
    requires PolygonInput(arg.value)
    modifies arg
    ensures r == PolygonGeometry(old(arg.value), ns)
    ensures arg.value == ArgumentAfter(old(arg.value), ns)
  {
    ghost var original := arg.value;
    var wrapped := Wraps(arg.value);
    var rings := if wrapped then [arg.value] else Elements(arg.value);
    var error, arr := CloseRings(arg, original, wrapped, rings, ns);
    if error {
      r := Fail(RingCountMessage);
    } else {
      r := Done(Geometry("Polygon", JArr(arr)));
    }
  }

  /**
    The `_.find` walk of the polygon branch: it stops at the first ring shorter
    than 3 and reports it; every ring before it is closed in the caller's array
    and contributes its swapped points.
   */
  method CloseRings(arg: Argument, ghost original: Json, wrapped: bool, rings: seq<Json>, ns: NumberSyntax)
    returns (error: bool, arr: seq<Json>)
    requires PolygonInput(original) && arg.value == original
    requires wrapped == Wraps(original) && rings == PolygonRings(original)
    modifies arg
    ensures error == (Reached(rings, 3) < |rings|)
    ensures !error ==> arr == SwapLines(CloseAll(rings, ns), ns)
    ensures arg.value == ClosedUpTo(original, Reached(rings, 3), ns)
  {
    arr := [];
    error := false;
    var i := 0;
    ClosedUpToNone(original, ns);
    while i < |rings|
      invariant 0 <= i <= Reached(rings, 3)
      invariant arr == SwapLines(CloseAll(rings[..i], ns), ns)
      invariant arg.value == ClosedUpTo(original, i, ns)
    {
      if ShorterThan(rings[i], 3) {
        ReachedAt(rings, i, 3);
        error := true;
        return;
      }
      ReachedPast(rings, i, 3);
      arr := PolygonRingStep(arg, original, wrapped, rings, i, arr, ns);
      i := i + 1;
    }
    ReachedAt(rings, i, 3);
    assert rings[..i] == rings;
  }

  /** The `_.find` callback on a ring that is long enough: close it, then push its swapped points. */
  method PolygonRingStep(arg: Argument, ghost original: Json, wrapped: bool, rings: seq<Json>, i: nat,
                         arr: seq<Json>, ns: NumberSyntax) returns (next: seq<Json>)
    requires wrapped == Wraps(original) && rings == PolygonRings(original) && i < Reached(rings, 3) && PolygonInput(original)
    requires arg.value == ClosedUpTo(original, i, ns)
    requires arr == SwapLines(CloseAll(rings[..i], ns), ns)
    modifies arg
    ensures arg.value == ClosedUpTo(original, i + 1, ns)
    ensures next == SwapLines(CloseAll(rings[..i + 1], ns), ns)
  {
    var ring := ClosePolygonRing(arg, original, wrapped, rings, i, ns);
    var nested := SwapPoints(Elements(ring), ns);
    ClosedLinesStep(rings, i, ns);
    next := arr + [JArr(nested)];
  }

  /**
    One step of the polygon branch's walk: `ring.push(ring[0])` when the ring's
    text differs from its last point's, where the ring is the caller's array
    itself (a single ring) or its member `i`.
   */
  method ClosePolygonRing(arg: Argument, ghost original: Json, wrapped: bool, rings: seq<Json>, i: nat, ns: NumberSyntax)
    returns (closed: Json)
    requires wrapped == Wraps(original) && rings == PolygonRings(original) && i < Reached(rings, 3) && PolygonInput(original)
    requires arg.value == ClosedUpTo(original, i, ns)
    modifies arg
    ensures arg.value == ClosedUpTo(original, i + 1, ns)
    ensures closed == Close(rings[i], ns)
  {
    var ring := rings[i];
    ReachedLong(rings, i, 3);
    assert ring.JArr?;
    var last := Last(ring).value;
    if wrapped {
      assert i == 0 && ring == original;
      if ToText(ring, ns) != ToText(last, ns) {
        arg.value := JArr(ring.items + [ring.items[0]]);
      }
    } else {
      assert original.JArr? && rings == original.items;
      ClosedUpToStep(original, i, ns);
      if ToText(ring, ns) != ToText(last, ns) {
        arg.value := JArr(arg.value.items[i := JArr(ring.items + [ring.items[0]])]);
      }
    }
    closed := arg.value;
    if !wrapped {
      closed := arg.value.items[i];
    }
  }

  /** The multilinestring branch: stop at the first line shorter than 2. */
  method MultiLineStringToGeoJSON(input: Json, ns: NumberSyntax) returns (r: Outcome)
    ensures r == MultiLineStringGeometry(input, ns)
  {
    var lines := Elements(input);
    var arr: seq<Json> := [];
    var error := false;
    var i := 0;
    while i < |lines|
      invariant 0 <= i <= Reached(lines, 2)
      invariant !error
      invariant arr == SwapLines(lines[..i], ns)
    {
      var a := lines[i];
      if ShorterThan(a, 2) && !error {
        error := true;
        break;
      }
      ReachedPast(lines, i, 2);
      var nested := SwapPoints(Elements(a), ns);
      arr := arr + [JArr(nested)];
      SwapLinesStep(lines, i, ns);
      i := i + 1;
    }
    ReachedAt(lines, i, 2);
    if error {
      r := Fail(LineCountMessage);
    } else {
      assert lines[..i] == lines;
      r := Done(Geometry("MultiLineString", JArr(arr)));
    }
  }

  /**
    The inner walk of the multipolygon branch over one polygon's rings: it
    stops at the first ring shorter than 3, which records the error.
   */
  method SwapRings(rings: seq<Json>, ns: NumberSyntax) returns (short: bool, outer: seq<Json>)
    ensures short == (Reached(rings, 3) < |rings|)
    ensures !short ==> outer == SwapLines(rings, ns)
  {
    outer := [];
    short := false;
    var j := 0;
    while j < |rings|
      invariant 0 <= j <= |rings|
      invariant !short
      invariant j <= Reached(rings, 3)
      invariant outer == SwapLines(rings[..j], ns)
    {
      var ring := rings[j];
      if ShorterThan(ring, 3) {
        short := true;
        break;
      }
      ReachedPast(rings, j, 3);
      var inner := SwapPoints(Elements(ring), ns);
      outer := outer + [JArr(inner)];
      SwapLinesStep(rings, j, ns);
      j := j + 1;
    }
    ReachedAt(rings, j, 3);
    if !short {
      assert rings[..j] == rings;
    }
  }

  /**
    The multipolygon branch: every polygon is walked (the outer `_.find`
    callback always returns false), and an error in any of them is kept.
   */
  method MultiPolygonToGeoJSON(input: Json, ns: NumberSyntax) returns (r: Outcome)
    ensures r == MultiPolygonGeometry(input, ns)
  {
    var polygons := Elements(input);
    var arr: seq<Json> := [];
    var error := false;
    var i := 0;
    while i < |polygons|
      invariant 0 <= i <= |polygons|
      invariant error == AnyShortRing(polygons[..i])
      invariant !error ==> arr == SwapPolygons(polygons[..i], ns)
    {
      var rings := Elements(polygons[i]);
      var short, outer := SwapRings(rings, ns);
      if short {
        error := true;
      }
      SwapPolygonsStep(polygons, i, ns);
      assert error == AnyShortRing(polygons[..i + 1]);
      arr := arr + [JArr(outer)];
      i := i + 1;
    }
    assert polygons[..i] == polygons;
    if error {
      r := Fail(PolygonRingCountMessage);
    } else {
      r := Done(Geometry("MultiPolygon", JArr(arr)));
    }
  }

  /** `toGeoJSON(array, type)`, where `arg` holds the caller's `array`. */
  method ToGeoJSON(arg: Argument, kind: Option<string>, ns: NumberSyntax) returns (r: Outcome)
    requires GeoJSONInput(arg.value, kind)
    modifies arg
    ensures r == GeoJSONOf(old(arg.value), kind, ns)
    ensures arg.value == if Case(KindName(kind)) == Some(Polygon) then ArgumentAfter(old(arg.value), ns) else old(arg.value)
  {
    var k := Case(KindName(kind));
    if k == Some(Point) {
      r := PointGeometry(arg.value, ns);
    } else if k == Some(LineString) || k == Some(MultiPoint) {
      var arr := SwapPoints(Elements(arg.value), ns);
      r := Done(Geometry(if k == Some(LineString) then "LineString" else "MultiPoint", JArr(arr)));
    } else if k == Some(Polygon) {
      r := PolygonToGeoJSON(arg, ns);
    } else if k == Some(MultiLineString) {
      r := MultiLineStringToGeoJSON(arg.value, ns);
    } else if k == Some(MultiPolygon) {
      r := MultiPolygonToGeoJSON(arg.value, ns);
    } else {
      r := Fail(UnsupportedKindMessage);
    }
  }

  // ---------------------------------------------------------------------------
  // toArray

  /** The linestring branch: every point must be an array (`typeof ln === 'object'`). */
  method LineStringToArray(points: seq<Json>, ns: NumberSyntax) returns (r: Outcome)
    ensures r == LineStringArray(points, ns)
  {
    var line: seq<Json> := [];
    var error := false;
    var i := 0;
    while i < |points|
      invariant 0 <= i <= |points|
      invariant AllArrays(points[i..]) == AllArrays(points)
      invariant line == SwapAll(points[..i], ns)
    {
      var ln := points[i];
      if !ln.JArr? {
        error := true;
        break;
      }
      line := line + [JArr([ParseFloat(At(ln, 1), ns), ParseFloat(At(ln, 0), ns)])];
      assert points[i..][1..] == points[i + 1..];
      assert points[..i + 1][..i] == points[..i];
      i := i + 1;
    }
    if error {
      r := Fail(BadLineStringMessage);
    } else {
      assert points[..i] == points;
      r := Done(JArr(line));
    }
  }

  /**
    `_.each(_.initial(a), function (pl) { poly.push([parseFloat(pl[1]), parseFloat(pl[0])]); })`
    after the three checks of one ring.
   */
  method CheckRing(a: Json, ns: NumberSyntax) returns (problem: Option<string>, poly: seq<Json>)
    ensures problem == RingProblem(a, ns)
    ensures problem.None? ==> JArr(poly) == Stripped(a, ns)
  {
    poly := [];
    if NoLength(a) {
      return Some(BadPolygonMessage), poly;
    }
    var points := Elements(a);
    if ToText(points[0], ns) != ToText(points[|points| - 1], ns) {
      return Some(OpenPolygonMessage), poly;
    }
    if |points| < 4 {
      return Some(ShortPolygonMessage), poly;
    }
    problem := None;
    poly := SwapPoints(points[..|points| - 1], ns);
  }

  /**
    The polygon branch: each ring is checked for a length, a closing point
    and 4 points; `array` is rebound to each stripped ring in turn.
   */
  method PolygonToArray(rings: seq<Json>, ns: NumberSyntax) returns (r: Outcome)
    ensures r == PolygonArray(rings, ns)
  {
    var list: seq<Json> := [];
    var error: Option<string> := None;
    var i := 0;
    while i < |rings|
      invariant 0 <= i <= |rings|
      invariant error.None?
      invariant PolygonProblem(rings[i..], ns) == PolygonProblem(rings, ns)
      invariant i == 0 ==> list == []
      invariant i > 0 ==> JArr(list) == Stripped(rings[i - 1], ns)
    {
      var problem, poly := CheckRing(rings[i], ns);
      if problem.Some? {
        error := problem;
        break;
      }
      PolygonProblemStep(rings, i, ns);
      list := list + [JArr(poly)];
      if error.None? {
        list := poly;
      }
      i := i + 1;
    }
    if error.Some? {
      r := Fail(error.value);
    } else {
      r := Done(JArr(list));
    }
  }

  /** The multilinestring branch: every line needs a non-zero length. */
  method MultiLineStringToArray(lines: seq<Json>, ns: NumberSyntax) returns (r: Outcome)
    ensures r == MultiLineStringArray(lines, ns)
  {
    var list: seq<Json> := [];
    var error := false;
    var i := 0;
    while i < |lines|
      invariant 0 <= i <= |lines|
      invariant AllHaveLength(lines[i..]) == AllHaveLength(lines)
      invariant list == SwapLines(lines[..i], ns)
    {
      var a := lines[i];
      if NoLength(a) {
        error := true;
        break;
      }
      var multiline := SwapPoints(Elements(a), ns);
      list := list + [JArr(multiline)];
      assert lines[i..][1..] == lines[i + 1..];
      SwapLinesStep(lines, i, ns);
      i := i + 1;
    }
    if error {
      r := Fail(BadMultiLineStringMessage);
    } else {
      assert lines[..i] == lines;
      r := Done(JArr(list));
    }
  }

  /**
    The `_.find` over one polygon's rings in the multipolygon branch: it stops
    at the first ring with a problem, and pushes each stripped ring before it.
   */
  method StripRings(rings: seq<Json>, ns: NumberSyntax) returns (problem: Option<string>, pushed: seq<Json>)
    ensures problem == PolygonProblem(rings, ns)
    ensures problem.None? ==> pushed == StrippedAll(rings, ns)
  {
    pushed := [];
    problem := None;
    var i := 0;
    while i < |rings|
      invariant 0 <= i <= |rings|
      invariant PolygonProblem(rings[i..], ns) == PolygonProblem(rings, ns)
      invariant pushed == StrippedAll(rings[..i], ns)
    {
      var ringProblem, poly := CheckRing(rings[i], ns);
      if ringProblem.Some? {
        problem := ringProblem;
        return;
      }
      PolygonProblemStep(rings, i, ns);
      StrippedAllStep(rings, i, ns);
      pushed := pushed + [JArr(poly)];
      i := i + 1;
    }
    assert rings[..i] == rings;
  }

  /**
    The multipolygon branch: every polygon is walked (the outer `_.each` does
    not stop), each one up to its first bad ring, and a later error overwrites
    an earlier one; the stripped rings are all pushed onto one list.
   */
  method MultiPolygonToArray(polygons: seq<Json>, ns: NumberSyntax) returns (r: Outcome)
    ensures r == MultiPolygonArray(polygons, ns)
  {
    var list: seq<Json> := [];
    var error: Option<string> := None;
    var p := 0;
    while p < |polygons|
      invariant 0 <= p <= |polygons|
      invariant error == LastPolygonProblem(polygons[..p], ns)
      invariant error.None? ==> list == AllStripped(polygons[..p], ns)
    {
      var problem, pushed := StripRings(Elements(polygons[p]), ns);
      if problem.Some? {
        error := problem;
      }
      AllStrippedStep(polygons, p, ns);
      list := list + pushed;
      p := p + 1;
    }
    assert polygons[..p] == polygons;
    if error.Some? {
      r := Fail(error.value);
    } else {
      r := Done(JArr(list));
    }
  }

  /** `toArray(geoobj)`. */
  method ToArray(geo: Json, ns: NumberSyntax) returns (r: Outcome)
    requires ArrayInput(geo)
    ensures r == ArrayOf(geo, ns)
  {
    var t := Get(geo, "type");
    var c := Get(geo, "coordinates");
    if !Present(t) || !Present(c) {
      return Fail(NotGeoJSONMessage);
    }
    var k := Case(Lower(t.value.s));
    var members := Elements(c.value);
    if k == Some(Point) {
      r := Done(JArr([ParseFloat(At(c.value, 1), ns), ParseFloat(At(c.value, 0), ns)]));
    } else if k == Some(LineString) {
      r := LineStringToArray(members, ns);
    } else if k == Some(Polygon) {
      r := PolygonToArray(members, ns);
    } else if k == Some(MultiPoint) {
      var list := SwapPoints(members, ns);
      r := Done(JArr(list));
    } else if k == Some(MultiLineString) {
      r := MultiLineStringToArray(members, ns);
    } else if k == Some(MultiPolygon) {
      r := MultiPolygonToArray(members, ns);
    } else {
      r := Fail(UnknownTypeMessage);
    }
  }
}
