/**
  What `toGeoJSON` and `toArray` compute, as functions of their inputs. The
  methods in module Converter are proved to compute exactly these.

  Both converters read numbers with `parseFloat` and compare points through
  `toString`; the two number conversions that involves (reading a decimal
  numeral and printing a number) are given as a `NumberSyntax` parameter.
 */
module ConverterSpec {
  import opened Js
  import opened Validator

  /**
    `parse` is the numeric prefix `parseFloat` reads from a text (None: NaN),
    `show` is `Number.prototype.toString`.
   */
  datatype NumberSyntax = NumberSyntax(parse: string -> Option<real>, show: real -> string)

  /** What a converter returns: an `Error` carrying a message, or a value. */
  datatype Outcome = Fail(message: string) | Done(value: Json)

  // ---------------------------------------------------------------------------
  // `toString` and `parseFloat`

  /** `parts.join(",")`. */
  function Join(parts: seq<string>): (r: string)
    ensures |parts| > 0 ==> |r| >= |parts| - 1 + |parts[|parts| - 1]|
    ensures |parts| > 0 ==> r[|r| - |parts[|parts| - 1]|..] == parts[|parts| - 1]
  {
    if |parts| == 0 then ""
    else if |parts| == 1 then parts[0]
    else parts[0] + "," + Join(parts[1..])
  }

  /**
    `v.toString()`: an array joins its elements' texts with commas (a `null`
    element gives the empty text).
   */
  function ToText(v: Json, ns: NumberSyntax): string {
    match v
    case JNull => ""
    case JBool(b) => if b then "true" else "false"
    case JNum(n) => ns.show(n)
    case JNaN => "NaN"
    case JStr(s) => s
    case JArr(items) => Join(seq(|items|, i requires 0 <= i < |items| => ToText(items[i], ns)))
    case JObj(_) => "[object Object]"
  }

  function Parsed(p: Option<real>): (r: Json)
    ensures NumberValue(r)
  {
    if p.Some? then JNum(p.value) else JNaN
  }

  /**
    `parseFloat(x)` where `x` may be `undefined`: the numeric prefix of
    `String(x)`. A number reads back as itself, since JavaScript guarantees
    `parseFloat(String(x)) === x` for every finite `x` and NaN gives NaN;
    booleans, `null`, `undefined` and objects give NaN.
   */
  function ParseFloat(o: Option<Json>, ns: NumberSyntax): (r: Json)
    ensures NumberValue(r)
    ensures o.Some? && NumberValue(o.value) ==> r == o.value
    ensures o.None? ==> r == JNaN
  {
    if o.None? then JNaN
    else match o.value
      case JNum(n) => JNum(n)
      case JNaN => JNaN
      case JStr(s) => Parsed(ns.parse(s))
      case JArr(_) => Parsed(ns.parse(ToText(o.value, ns)))
      case _ => JNaN
  }

  /**
    `[parseFloat(a[1]), parseFloat(a[0])]`: a point with its two coordinates
    exchanged. A point whose first two values are numbers comes out as those
    two numbers in the other order.
   */
  function Swap(point: Json, ns: NumberSyntax): (r: Json)
    ensures r.JArr? && |r.items| == 2 && NumberValue(r.items[0]) && NumberValue(r.items[1])
    ensures point.JArr? && |point.items| >= 2 && NumberValue(point.items[0]) && NumberValue(point.items[1]) ==>
              r == JArr([point.items[1], point.items[0]])
  {
    JArr([ParseFloat(At(point, 1), ns), ParseFloat(At(point, 0), ns)])
  }

  function SwapAll(points: seq<Json>, ns: NumberSyntax): (r: seq<Json>)
    ensures |r| == |points|
  {
    if |points| == 0 then [] else SwapAll(points[..|points| - 1], ns) + [Swap(points[|points| - 1], ns)]
  }

  // ---------------------------------------------------------------------------
  // `_.flatten` and `toLowerCase`

  /** The deep flattening of a list: nested arrays are spliced in, everything else is kept. */
  function FlattenItems(items: seq<Json>): (r: seq<Json>)
    ensures forall i :: 0 <= i < |r| ==> !r[i].JArr?
    ensures (forall i :: 0 <= i < |items| ==> !items[i].JArr?) ==> r == items
    decreases items
  {
    if |items| == 0 then []
    else
      (if items[0].JArr? then FlattenItems(items[0].items) else [items[0]]) + FlattenItems(items[1..])
  }

  /** `_.flatten(v)`: an array is flattened deeply, a string gives its characters, anything else nothing. */
  function Flatten(v: Json): (r: seq<Json>)
    ensures forall i :: 0 <= i < |r| ==> !r[i].JArr?
  {
    match v
    case JArr(items) => FlattenItems(items)
    case JStr(_) => Elements(v)
    case _ => []
  }

  function LowerChar(c: char): char {
    if 'A' <= c <= 'Z' then (c as int + 32) as char else c
  }

  /**
    `toLowerCase` on the ASCII letters. No other character lowercases to a
    letter of the six type names, so the branch taken is the same.
   */
  function Lower(s: string): (r: string)
    ensures |r| == |s|
  {
    seq(|s|, i requires 0 <= i < |s| => LowerChar(s[i]))
  }

  // ---------------------------------------------------------------------------
  // `toGeoJSON(array, type)`

  const PointCountMessage := "expected a single set of coordinates in [lat, lng] format. \nReceived "
  const RingCountMessage := "Expecting 'array' to have at length of at least 3 sets of coordinates."
  const LineCountMessage := "Expecting each LineString in MultiLineString to have at least 2 points."
  const PolygonRingCountMessage := "Expecting each array in MultiPolygon to have at least 3 points."
  const UnsupportedKindMessage := "type not recognised or supported"

  /** A falsy `type` defaults to "point"; any other is lowercased. */
  function KindName(kind: Option<string>): string {
    if kind.None? || kind.value == "" then "point" else Lower(kind.value)
  }

  /** The `case` of the converters' `switch` that a lowercased type name selects: one of the six geometry kinds. */
  function Case(name: string): (k: Option<Kind>)
    ensures k.Some? ==> GeometryKind(k.value)
  {
    if name == "point" then Some(Point)
    else if name == "linestring" then Some(LineString)
    else if name == "multipoint" then Some(MultiPoint)
    else if name == "polygon" then Some(Polygon)
    else if name == "multilinestring" then Some(MultiLineString)
    else if name == "multipolygon" then Some(MultiPolygon)
    else None
  }

  /** A Point needs exactly two values once `array` is flattened; they are swapped. */
  function PointGeometry(input: Json, ns: NumberSyntax): Outcome {
    var flat := Flatten(input);
    if |flat| != 2 then Fail(PointCountMessage)
    else Done(Geometry("Point", JArr([ParseFloat(Some(flat[1]), ns), ParseFloat(Some(flat[0]), ns)])))
  }

  /** `_.isArray(array) && _.isArray(array[0]) && !_.isArray(array[0][0])`: a single ring was passed. */
  predicate Wraps(input: Json) {
    input.JArr? && |input.items| > 0 && input.items[0].JArr? &&
    !(|input.items[0].items| > 0 && input.items[0].items[0].JArr?)
  }

  /** The rings the polygon branch walks, after `array = [array]`. */
  function PolygonRings(input: Json): seq<Json> {
    if Wraps(input) then [input] else Elements(input)
  }

  /** How many members `_.find` passes before meeting one shorter than `n` (all of them if none is). */
  function Reached(members: seq<Json>, n: nat): (r: nat)
    ensures r <= |members|
  {
    if |members| == 0 then 0
    else if ShorterThan(members[0], n) then 0
    else 1 + Reached(members[1..], n)
  }

  /** `Reached` stops exactly at the first member shorter than `n`. */
  lemma {:induction false} ReachedStopsAtFirstShort(members: seq<Json>, n: nat)
    ensures forall i :: 0 <= i < Reached(members, n) ==> !ShorterThan(members[i], n)
    ensures Reached(members, n) < |members| ==> ShorterThan(members[Reached(members, n)], n)
  {
    if |members| > 0 && !ShorterThan(members[0], n) {
      var rest := members[1..];
      ReachedStopsAtFirstShort(rest, n);
      forall i | 1 <= i < Reached(members, n) ensures !ShorterThan(members[i], n) {
        assert members[i] == rest[i - 1];
      }
      if Reached(members, n) < |members| {
        assert members[Reached(members, n)] == rest[Reached(rest, n)];
      }
    }
  }

  /** Every member the walk passes is long. */
  lemma ReachedLong(members: seq<Json>, i: nat, n: nat)
    requires i < Reached(members, n)
    ensures !ShorterThan(members[i], n)
  {
    ReachedStopsAtFirstShort(members, n);
  }

  /** A walk that has not yet passed `Reached` and meets a long member goes on past it. */
  lemma ReachedPast(members: seq<Json>, i: nat, n: nat)
    requires i <= Reached(members, n) && i < |members| && !ShorterThan(members[i], n)
    ensures i < Reached(members, n)
  {
    ReachedStopsAtFirstShort(members, n);
  }

  /** A walk that has not yet passed `Reached` stops exactly there: at the end or at a short member. */
  lemma ReachedAt(members: seq<Json>, i: nat, n: nat)
    requires i <= Reached(members, n)
    requires i == |members| || (i < |members| && ShorterThan(members[i], n))
    ensures i == Reached(members, n)
  {
    ReachedStopsAtFirstShort(members, n);
  }

  /** No member of `line` is `null`: swapping its points reads `a[1]` of each. */
  predicate NullFreePoints(line: Json) {
    forall j :: 0 <= j < |Elements(line)| ==> !Elements(line)[j].JNull?
  }

  /**
    What the polygon branch needs in order not to throw: every ring it reaches
    with at least 3 members is an array (`null` fails at `.length`, a string
    at `push`, a number or boolean at `_.last(...).toString()`), and none of
    its points is `null`.
   */
  predicate PolygonInput(input: Json) {
    var rings := PolygonRings(input);
    forall i :: 0 <= i < Reached(rings, 3) ==> rings[i].JArr? && NullFreePoints(rings[i])
  }

  /**
    What the multilinestring branch needs in order not to throw: no line it
    passes is `null` (`a.length`), and none of their points is.
   */
  predicate LinesInput(lines: seq<Json>) {
    forall i :: 0 <= i < Reached(lines, 2) ==> !lines[i].JNull? && NullFreePoints(lines[i])
  }

  /**
    What the multipolygon branch needs in order not to throw: in every polygon
    (which may itself be `null`), no ring the inner walk reaches is `null`
    (`_a.length`), and none of their points is.
   */
  predicate PolygonsInput(polygons: seq<Json>) {
    forall i :: 0 <= i < |polygons| ==> LinesInput3(Elements(polygons[i]))
  }

  /** `LinesInput` for rings, which the walk passes while they have 3 members or more. */
  predicate LinesInput3(rings: seq<Json>) {
    forall j :: 0 <= j < Reached(rings, 3) ==> !rings[j].JNull? && NullFreePoints(rings[j])
  }

  /**
    `if (ring.toString() !== _.last(ring).toString()) ring.push(ring[0])`.
   */
  function Close(ring: Json, ns: NumberSyntax): Json {
    if ring.JArr? && |ring.items| > 0 &&
       ToText(ring, ns) != ToText(ring.items[|ring.items| - 1], ns)
    then JArr(ring.items + [ring.items[0]])
    else ring
  }

  /** Each ring passed through `Close`. */
  function CloseAll(rings: seq<Json>, ns: NumberSyntax): (r: seq<Json>)
    ensures |r| == |rings|
  {
    if |rings| == 0 then [] else CloseAll(rings[..|rings| - 1], ns) + [Close(rings[|rings| - 1], ns)]
  }

  /** Each line's points swapped. */
  function SwapLines(lines: seq<Json>, ns: NumberSyntax): (r: seq<Json>)
    ensures |r| == |lines|
  {
    if |lines| == 0 then []
    else SwapLines(lines[..|lines| - 1], ns) + [JArr(SwapAll(Elements(lines[|lines| - 1]), ns))]
  }

  /** Closing one more ring of the walk extends the closed prefix by that ring. */
  lemma CloseAllStep(rings: seq<Json>, i: nat, ns: NumberSyntax)
    requires i < |rings|
    ensures CloseAll(rings[..i + 1], ns) == CloseAll(rings[..i], ns) + [Close(rings[i], ns)]
  {
    assert rings[..i + 1][..i] == rings[..i];
  }

  /** Swapping the points of one more line extends the swapped lines by it. */
  lemma SwapLinesSnoc(lines: seq<Json>, line: Json, ns: NumberSyntax)
    ensures SwapLines(lines + [line], ns) == SwapLines(lines, ns) + [JArr(SwapAll(Elements(line), ns))]
  {
    assert (lines + [line])[..|lines|] == lines;
  }

  /** Swapping the points of line `i` extends the swapped prefix by that line. */
  lemma SwapLinesStep(lines: seq<Json>, i: nat, ns: NumberSyntax)
    requires i < |lines|
    ensures SwapLines(lines[..i + 1], ns) == SwapLines(lines[..i], ns) + [JArr(SwapAll(Elements(lines[i]), ns))]
  {
    assert lines[..i + 1][..i] == lines[..i];
  }

  /** Closing ring `i` and swapping its points extends the result of the polygon walk by that ring. */
  lemma ClosedLinesStep(rings: seq<Json>, i: nat, ns: NumberSyntax)
    requires i < |rings|
    ensures SwapLines(CloseAll(rings[..i + 1], ns), ns) ==
            SwapLines(CloseAll(rings[..i], ns), ns) + [JArr(SwapAll(Elements(Close(rings[i], ns)), ns))]
  {
    CloseAllStep(rings, i, ns);
    SwapLinesSnoc(CloseAll(rings[..i], ns), Close(rings[i], ns), ns);
  }

  /** The caller's `array` once the first `k` rings the polygon branch walks have been closed. */
  function ClosedUpTo(input: Json, k: nat, ns: NumberSyntax): Json
    requires k <= |PolygonRings(input)|
  {
    if Wraps(input) then (if k == 0 then input else Close(input, ns))
    else if input.JArr? then JArr(CloseAll(input.items[..k], ns) + input.items[k..])
    else input
  }

  /** Before any ring is closed the caller's array is unchanged. */
  lemma ClosedUpToNone(input: Json, ns: NumberSyntax)
    ensures ClosedUpTo(input, 0, ns) == input
  {
    if !Wraps(input) && input.JArr? {
      assert input.items[0..] == input.items;
    }
  }

  /** Closing ring `k` of an unwrapped array replaces that member of the caller's array only. */
  lemma ClosedUpToStep(input: Json, k: nat, ns: NumberSyntax)
    requires !Wraps(input) && input.JArr? && k < |input.items|
    ensures ClosedUpTo(input, k, ns).items[k] == input.items[k]
    ensures ClosedUpTo(input, k + 1, ns) == JArr(ClosedUpTo(input, k, ns).items[k := Close(input.items[k], ns)])
  {
    var items := input.items;
    var done := CloseAll(items[..k], ns);
    assert items[..k + 1][..k] == items[..k];
    assert CloseAll(items[..k + 1], ns) == done + [Close(items[k], ns)];
    assert items[k..] == [items[k]] + items[k + 1..];
  }

  /** The caller's `array` after `toGeoJSON(array, "polygon")`: the rings it reached are closed in place. */
  function ArgumentAfter(input: Json, ns: NumberSyntax): Json {
    ClosedUpTo(input, Reached(PolygonRings(input), 3), ns)
  }

  function PolygonGeometry(input: Json, ns: NumberSyntax): Outcome
    requires PolygonInput(input)
  {
    var rings := PolygonRings(input);
    if Reached(rings, 3) < |rings| then Fail(RingCountMessage)
    else Done(Geometry("Polygon", JArr(SwapLines(CloseAll(rings, ns), ns))))
  }

  function MultiLineStringGeometry(input: Json, ns: NumberSyntax): Outcome {
    var lines := Elements(input);
    if Reached(lines, 2) < |lines| then Fail(LineCountMessage)
    else Done(Geometry("MultiLineString", JArr(SwapLines(lines, ns))))
  }

  /** Some polygon holds a ring with fewer than 3 members. */
  predicate AnyShortRing(polygons: seq<Json>) {
    if |polygons| == 0 then false
    else
      var rings := Elements(polygons[|polygons| - 1]);
      AnyShortRing(polygons[..|polygons| - 1]) || Reached(rings, 3) < |rings|
  }

  /** Each polygon with each ring's points swapped; rings are not closed. */
  function SwapPolygons(polygons: seq<Json>, ns: NumberSyntax): (r: seq<Json>)
    ensures |r| == |polygons|
  {
    if |polygons| == 0 then []
    else SwapPolygons(polygons[..|polygons| - 1], ns) + [JArr(SwapLines(Elements(polygons[|polygons| - 1]), ns))]
  }

  /** One more polygon of the multipolygon walk. */
  lemma SwapPolygonsStep(polygons: seq<Json>, i: nat, ns: NumberSyntax)
    requires i < |polygons|
    ensures var rings := Elements(polygons[i]);
            AnyShortRing(polygons[..i + 1]) == (AnyShortRing(polygons[..i]) || Reached(rings, 3) < |rings|)
    ensures SwapPolygons(polygons[..i + 1], ns) == SwapPolygons(polygons[..i], ns) + [JArr(SwapLines(Elements(polygons[i]), ns))]
  {
    assert polygons[..i + 1][..i] == polygons[..i];
  }

  function MultiPolygonGeometry(input: Json, ns: NumberSyntax): Outcome {
    var polygons := Elements(input);
    if AnyShortRing(polygons) then Fail(PolygonRingCountMessage)
    else Done(Geometry("MultiPolygon", JArr(SwapPolygons(polygons, ns))))
  }

  /**
    What the point branch needs for `_.flatten` and `parseFloat` to act as
    modelled: `array` is no object with a `length` key (`_.flatten` would index
    it), and when it flattens to two values, neither is an object with a
    `toString` key (`String()` of it throws, since a JSON value is never callable).
   */
  predicate PointInput(input: Json) {
    var flat := Flatten(input);
    !(input.JObj? && "length" in input.fields) &&
    (|flat| == 2 ==> forall i :: 0 <= i < 2 ==> !(flat[i].JObj? && "toString" in flat[i].fields))
  }

  /**
    The inputs the model of `toGeoJSON` covers: those on which the branch the
    type selects does not throw. Outside the point branch they hold no object
    (whose keys would steer `_.each`, indexing and `toString`).
   */
  predicate GeoJSONInput(input: Json, kind: Option<string>) {
    var k := Case(KindName(kind));
    (k == Some(Point) ==> PointInput(input)) &&
    (k.Some? && k != Some(Point) ==> ObjectFree(input)) &&
    (k == Some(LineString) || k == Some(MultiPoint) ==> NullFreePoints(input)) &&
    (k == Some(Polygon) ==> PolygonInput(input)) &&
    (k == Some(MultiLineString) ==> LinesInput(Elements(input))) &&
    (k == Some(MultiPolygon) ==> PolygonsInput(Elements(input)))
  }

  /** `toGeoJSON(input, type)`. */
  function GeoJSONOf(input: Json, kind: Option<string>, ns: NumberSyntax): Outcome
    requires GeoJSONInput(input, kind)
  {
    var k := Case(KindName(kind));
    if k == Some(Point) then PointGeometry(input, ns)
    else if k == Some(LineString) then Done(Geometry("LineString", JArr(SwapAll(Elements(input), ns))))
    else if k == Some(MultiPoint) then Done(Geometry("MultiPoint", JArr(SwapAll(Elements(input), ns))))
    else if k == Some(Polygon) then PolygonGeometry(input, ns)
    else if k == Some(MultiLineString) then MultiLineStringGeometry(input, ns)
    else if k == Some(MultiPolygon) then MultiPolygonGeometry(input, ns)
    else Fail(UnsupportedKindMessage)
  }

  // ---------------------------------------------------------------------------
  // `toArray(geoobj)`

  const NotGeoJSONMessage := "The object specified is not a a valid GeoJSON object"
  const BadLineStringMessage := "the object specified is not a valid GeoJSON LineString"
  const BadPolygonMessage := "the object specified is not a valid GeoJSON Polygon"
  const OpenPolygonMessage := "The first and last coordinates of the Polygon are not the same"
  const ShortPolygonMessage := "A valid Polygon should have a minimum set of 4 points"
  const BadMultiLineStringMessage := "the object specified is not a valid GeoJSON MultiLineString"
  const UnknownTypeMessage := "unknown GeoJSON type specified"

  /**
    The inputs of `toArray` the model covers: not `null`, a truthy `type` that
    is a string, and truthy `coordinates` without `null` or objects inside.
    A falsy `coordinates` (`null` included) is allowed: the gate rejects it first.
   */
  predicate ArrayInput(geo: Json) {
    !geo.JNull? &&
    (Present(Get(geo, "type")) ==> Get(geo, "type").value.JStr?) &&
    (Present(Get(geo, "coordinates")) ==> PlainData(Get(geo, "coordinates").value))
  }

  /** `!a.length`: no length, or length 0. */
  predicate NoLength(v: Json) {
    Length(v).None? || Length(v).value == 0
  }

  /** The first of `toArray`'s three ring checks that fails, if any. */
  function RingProblem(ring: Json, ns: NumberSyntax): Option<string> {
    var points := Elements(ring);
    if NoLength(ring) then Some(BadPolygonMessage)
    else if ToText(points[0], ns) != ToText(points[|points| - 1], ns) then Some(OpenPolygonMessage)
    else if |points| < 4 then Some(ShortPolygonMessage)
    else None
  }

  /** The problem of the first ring that has one: the message `_.find` stops at. */
  function PolygonProblem(rings: seq<Json>, ns: NumberSyntax): (r: Option<string>)
    ensures r.None? <==> forall i :: 0 <= i < |rings| ==> RingProblem(rings[i], ns).None?
  {
    if |rings| == 0 then None
    else if RingProblem(rings[0], ns).Some? then RingProblem(rings[0], ns)
    else
      var rest := PolygonProblem(rings[1..], ns);
      assert forall i :: 1 <= i < |rings| ==> rings[i] == rings[1..][i - 1];
      rest
  }

  /** A ring without a problem passes the walk on to the next ring. */
  lemma PolygonProblemStep(rings: seq<Json>, i: nat, ns: NumberSyntax)
    requires i < |rings| && RingProblem(rings[i], ns).None?
    ensures PolygonProblem(rings[i..], ns) == PolygonProblem(rings[i + 1..], ns)
  {
    assert rings[i..][1..] == rings[i + 1..];
  }

  /** `_.initial(ring)` with each point swapped: the ring without its closing point. */
  function Stripped(ring: Json, ns: NumberSyntax): Json {
    var points := Elements(ring);
    if |points| == 0 then JArr([]) else JArr(SwapAll(points[..|points| - 1], ns))
  }

  /** Each ring passed through `Stripped`. */
  function StrippedAll(rings: seq<Json>, ns: NumberSyntax): (r: seq<Json>)
    ensures |r| == |rings|
  {
    if |rings| == 0 then [] else StrippedAll(rings[..|rings| - 1], ns) + [Stripped(rings[|rings| - 1], ns)]
  }

  /** Every member is an array (`typeof ln === 'object'` for the data the model covers). */
  predicate AllArrays(items: seq<Json>) {
    |items| == 0 || (items[0].JArr? && AllArrays(items[1..]))
  }

  /** Every member has a non-zero `length`. */
  predicate AllHaveLength(items: seq<Json>) {
    |items| == 0 || (!NoLength(items[0]) && AllHaveLength(items[1..]))
  }

  function LineStringArray(points: seq<Json>, ns: NumberSyntax): Outcome {
    if !AllArrays(points) then Fail(BadLineStringMessage)
    else Done(JArr(SwapAll(points, ns)))
  }

  /** Every ring is checked, but `array` is rebound to each ring in turn: only the last one is returned. */
  function PolygonArray(rings: seq<Json>, ns: NumberSyntax): Outcome {
    var problem := PolygonProblem(rings, ns);
    if problem.Some? then Fail(problem.value)
    else if |rings| == 0 then Done(JArr([]))
    else Done(Stripped(rings[|rings| - 1], ns))
  }

  function MultiLineStringArray(lines: seq<Json>, ns: NumberSyntax): Outcome {
    if !AllHaveLength(lines) then Fail(BadMultiLineStringMessage)
    else Done(JArr(SwapLines(lines, ns)))
  }

  /** The problem reported for a list of polygons: a later polygon's overwrites an earlier one's. */
  function LastPolygonProblem(polygons: seq<Json>, ns: NumberSyntax): Option<string>
  {
    if |polygons| == 0 then None
    else
      var problem := PolygonProblem(Elements(polygons[|polygons| - 1]), ns);
      if problem.Some? then problem else LastPolygonProblem(polygons[..|polygons| - 1], ns)
  }

  /** The stripped rings of every polygon, in one list. */
  function AllStripped(polygons: seq<Json>, ns: NumberSyntax): seq<Json> {
    if |polygons| == 0 then []
    else AllStripped(polygons[..|polygons| - 1], ns) + StrippedAll(Elements(polygons[|polygons| - 1]), ns)
  }

  /** One more ring stripped. */
  lemma StrippedAllStep(rings: seq<Json>, i: nat, ns: NumberSyntax)
    requires i < |rings|
    ensures StrippedAll(rings[..i + 1], ns) == StrippedAll(rings[..i], ns) + [Stripped(rings[i], ns)]
  {
    assert rings[..i + 1][..i] == rings[..i];
  }

  /** One more polygon of the multipolygon walk of `toArray`. */
  lemma AllStrippedStep(polygons: seq<Json>, p: nat, ns: NumberSyntax)
    requires p < |polygons|
    ensures var problem := PolygonProblem(Elements(polygons[p]), ns);
            LastPolygonProblem(polygons[..p + 1], ns) ==
              if problem.Some? then problem else LastPolygonProblem(polygons[..p], ns)
    ensures AllStripped(polygons[..p + 1], ns) == AllStripped(polygons[..p], ns) + StrippedAll(Elements(polygons[p]), ns)
  {
    assert polygons[..p + 1][..p] == polygons[..p];
  }

  /**
    Every polygon is checked, the reported problem is the last polygon's that
    has one, and the rings of all polygons end up in one flat list.
   */
  function MultiPolygonArray(polygons: seq<Json>, ns: NumberSyntax): Outcome {
    var problem := LastPolygonProblem(polygons, ns);
    if problem.Some? then Fail(problem.value)
    else Done(JArr(AllStripped(polygons, ns)))
  }

  /** `toArray(geoobj)`. */
  function ArrayOf(geo: Json, ns: NumberSyntax): Outcome
    requires ArrayInput(geo)
  {
    var t := Get(geo, "type");
    var c := Get(geo, "coordinates");
    if !Present(t) || !Present(c) then Fail(NotGeoJSONMessage)
    else
      var k := Case(Lower(t.value.s));
      var members := Elements(c.value);
      if k == Some(Point) then Done(Swap(c.value, ns))
      else if k == Some(LineString) then LineStringArray(members, ns)
      else if k == Some(Polygon) then PolygonArray(members, ns)
      else if k == Some(MultiPoint) then Done(JArr(SwapAll(members, ns)))
      else if k == Some(MultiLineString) then MultiLineStringArray(members, ns)
      else if k == Some(MultiPolygon) then MultiPolygonArray(members, ns)
      else Fail(UnknownTypeMessage)
  }
}
