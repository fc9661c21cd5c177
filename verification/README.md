# GeoJSON-Tools in Dafny

A model of the core of GeoJSON-Tools, a small JavaScript library over GeoJSON
objects, and proofs about it. The model covers three operations and their
helpers:

- `isGeoJSON(obj, returnError)` is the validator. It answers `true`, `false` or,
  when `returnError` is set, an object `{result, message}`.
- `toGeoJSON(array, type)` turns `[lat, lng]` coordinate arrays into a Point,
  LineString, MultiPoint, Polygon, MultiLineString or MultiPolygon object. It
  swaps every pair to `[lng, lat]`, and in the polygon case it closes the
  caller's rings in place.
- `toArray(geoobj)` goes back from a geometry object to `[lat, lng]` arrays.

Modules:

- `Js` (`json.dfy`) holds JavaScript values as the library sees them: null,
  booleans, finite numbers, NaN, strings, arrays and objects. It also holds
  the JavaScript and Underscore.js reads the code relies on: truthiness,
  property access, `.length` and indexing on arrays and strings, `_.last`, and
  the first-match search of `_.find`.
- `Validator` (`validator.dfy`) holds `_returnError`, `_isPosition`,
  `_isLinearRing`, `_isLineString` and `isGeoJSON` as functions. Messages and
  type names are enumerations, each with its text.
- `ValidatorFacts` (`validator_facts.dfy`) states per GeoJSON type what the
  validator accepts, and what it answers otherwise.
- `ConverterSpec` (`converter_spec.dfy`) holds the specification functions of
  `toGeoJSON` and `toArray`. `parseFloat` of a text and `Number.prototype.toString`
  are a parameter, `NumberSyntax`; `parseFloat` of a number gives the number
  back, as JavaScript guarantees for every finite number.
- `Converter` (`converter.dfy`) holds the two converters as methods. Their
  loops mirror the `_.each` and `_.find` walks of the source, and each method
  is proved equal to its specification function. The caller's array, which the
  polygon case mutates, is the field of a class `Argument`.
- `ConverterFacts` and `ConverterWalks` (`converter_facts.dfy`,
  `converter_walks.dfy`) relate the two converters and the validator:
  - `toGeoJSON` output passes `isGeoJSON`;
  - `toArray` undoes `toGeoJSON` on number pairs;
  - the exact conditions under which each branch reports an error;
  - what the polygon and multipolygon round trips actually return: the last
    ring only, and all rings flattened and opened.

## Model

| member | source | states |
|---|---|---|
| Validator.ReturnError | src/geojson-tools.js:21-32 | without `returnError` the answer is the bare boolean; with it, an object whose `result` is the boolean, carrying a message exactly when a non-empty message was given; the answer is truthy iff `returnError` is set or the boolean is true |
| Validator.KindAt | src/geojson-tools.js:489-505 | the nine type names in the source's order; an index below 6 names a geometry type and only those |
| Validator.TypeIndex | src/geojson-tools.js:489-504 | the `_.indexOf` lookup: -1 for any value that is no valid type name, otherwise an index whose name is exactly the value |
| Validator.IsPosition | src/geojson-tools.js:34-40 | accepts exactly the arrays of at least two elements whose first two are numbers; anything else gets the invalid-Point answer |
| Validator.IsLinearRing | src/geojson-tools.js:42-56 | either `true` or the rejection carrying no message (the empty message is falsy) |
| Validator.IsLineString | src/geojson-tools.js:58-67 | either `true` or the rejection with the invalid-LineString message |
| Validator.Validate | src/geojson-tools.js:488-602 | `isGeoJSON` answers the bare `true` or a rejection of the mode's shape (bare `false` without `returnError`, an object with `result: false` with it); an object without a truthy valid type name gets the invalid-type message; what each type accepts is stated by the rules in `ValidatorFacts` |
| Validator.ValidateGeometry | src/geojson-tools.js:505-558 | a geometry answers `true` or a rejection of the mode's shape; missing, falsy or non-array `coordinates` get the invalid-type message |
| Validator.ValidateMultiPoint | src/geojson-tools.js:513-525 | fewer than 2 members gets the short-MultiPoint message; otherwise `true` or the bad-member message |
| Validator.ValidateLineString | src/geojson-tools.js:526-532 | fewer than 2 points gets the short-LineString message; otherwise `true` or the invalid-LineString message |
| Validator.ValidateMultiLineString | src/geojson-tools.js:533-545 | fewer than 2 lines gets the short-MultiLineString message; otherwise `true` or the bad-member message |
| Validator.ValidateMultiPolygon | src/geojson-tools.js:549-558 | `true` or the bad-member message |
| Validator.ValidateFeature | src/geojson-tools.js:560-570 | a missing or falsy `geometry`, and then missing or falsy `properties`, get their messages; any answer is `true` or a rejection of the mode's shape |
| Validator.ValidateCollection | src/geojson-tools.js:571-601 | a missing or falsy member list gets the missing message, a list that is no array the not-an-array message; otherwise `true` or the bad-member message |
| ValidatorFacts.FindsTruthyExactly | src/geojson-tools.js:43-53 | `_.find` followed by `if (invalid)` rejects iff the first flagged element is truthy; when every flagged element is truthy, iff some element is flagged |
| ValidatorFacts.LinearRingRule | src/geojson-tools.js:42-56 | without diagnostics the callback answers `false` for short or open rings and `_isPosition(ring)` otherwise, so a ring list is rejected iff some member is at least 4 long, closed and itself a position (its first two entries numbers), and a rejection is bare `false`; with diagnostics acceptance is the first-truthy-match rule over rings that are short, open or themselves a position, and a rejection carries no message |
| ValidatorFacts.LineStringPointsRule | src/geojson-tools.js:58-67 | a line is accepted iff no truthy member fails the position check; over truthy members, iff every member is a position; a rejection always carries the LineString message |
| ValidatorFacts.FalseIsRejection | src/geojson-tools.js:21-32 | `_returnError(false, …)` is `false` without diagnostics and an object with `result: false` with them |
| ValidatorFacts.DiagnosticVerdictIsTruthy | src/geojson-tools.js:488-602 | with `returnError` set, the answer is always truthy, so `if (isGeoJSON(x, true))` cannot detect invalid input |
| ValidatorFacts.PlainVerdictIsAcceptance | src/geojson-tools.js:488-602 | without `returnError`, the answer is truthy iff the object is accepted |
| ValidatorFacts.Position | src/geojson-tools.js:489-499 | every type has a position in the list of valid types |
| ValidatorFacts.TypeTable | src/geojson-tools.js:489-501 | `_.indexOf` finds each valid type name at its position in the list |
| ValidatorFacts.TypeGate | src/geojson-tools.js:501-504 | an object whose `type` is no valid type name is rejected with the invalid-type message |
| ValidatorFacts.GeometryDispatch | src/geojson-tools.js:505-558 | an object of one of the six geometry types is judged by that type's branch |
| ValidatorFacts.CoordinatesGate | src/geojson-tools.js:505-508 | a geometry whose `coordinates` is missing, falsy or not an array is rejected with the invalid-type message |
| ValidatorFacts.PointRule | src/geojson-tools.js:509-512 | a Point is accepted iff its coordinates hold at least two elements, the first two numbers; otherwise the Point message |
| ValidatorFacts.NullCoordinateIsNoPoint | src/geojson-tools.js:34-40 | `isGeoJSON({type: "Point", coordinates: [1, null]})` is within the model and gets the invalid-Point answer in both modes |
| ValidatorFacts.MultiPointMembers | src/geojson-tools.js:513-525 | fewer than 2 members gets the short-MultiPoint message; otherwise acceptance is the first-truthy-match rule over non-positions and a rejection carries the bad-member message; over truthy members, accepted iff at least 2 positions |
| ValidatorFacts.MultiPointRule | src/geojson-tools.js:513-525 | the MultiPoint rules above, lifted to the whole object |
| ValidatorFacts.LineStringRule | src/geojson-tools.js:526-532 | fewer than 2 points gets the short-LineString message; otherwise the `_isLineString` rule; over truthy points, accepted iff at least 2 positions |
| ValidatorFacts.MultiLineStringMembers | src/geojson-tools.js:533-545 | with diagnostics every list of at least 2 lines is accepted (the nested call returns a truthy object); without, at least 2 lines and no bad line; fewer than 2 lines gets the short-MultiLineString message |
| ValidatorFacts.MultiLineStringRule | src/geojson-tools.js:533-545 | the MultiLineString rules above, lifted to the whole object |
| ValidatorFacts.RingsRule | src/geojson-tools.js:42-56 | for an array of rings: rejected without diagnostics iff some ring is at least 4 long, closed and itself a position; with diagnostics, over truthy rings, accepted iff every ring is at least 4 long, closed and not itself a position |
| ValidatorFacts.PolygonRule | src/geojson-tools.js:546-548 | a Polygon is judged by `_isLinearRing` on its coordinates, in both modes, with the shapes of the answers |
| ValidatorFacts.MultiPolygonMembers | src/geojson-tools.js:549-558 | with diagnostics every MultiPolygon member list is accepted, since `_isLinearRing(…, true)` is always truthy; without, rejected iff some polygon holds a ring that is at least 4 long, closed and itself a position |
| ValidatorFacts.MultiPolygonRule | src/geojson-tools.js:549-558 | the MultiPolygon rules above, lifted to the whole object |
| ValidatorFacts.FeatureDispatch | src/geojson-tools.js:560-570 | a Feature is judged by the Feature branch |
| ValidatorFacts.FeatureRule | src/geojson-tools.js:560-570 | a Feature without a truthy `geometry`, or then without truthy `properties`, is rejected with that message; otherwise its answer is its geometry's answer in the same mode |
| ValidatorFacts.FeatureCollectionDispatch | src/geojson-tools.js:571-585 | a FeatureCollection is judged by the collection rule over `features` with its three messages |
| ValidatorFacts.GeometryCollectionDispatch | src/geojson-tools.js:586-601 | a GeometryCollection is judged by the collection rule over `geometries` with its three messages |
| ValidatorFacts.CollectionModes | src/geojson-tools.js:571-601 | a collection is accepted in one mode iff in the other, since members are checked without `returnError` |
| ValidatorFacts.CollectionMembers | src/geojson-tools.js:578-584 | a collection is accepted or rejected with the bad-member message; over truthy members, accepted iff every member is accepted without diagnostics |
| ValidatorFacts.FeatureCollectionRule | src/geojson-tools.js:571-585 | a FeatureCollection of truthy features is accepted iff every feature is, and otherwise gets the bad-feature message |
| ValidatorFacts.GeometryCollectionRule | src/geojson-tools.js:586-601 | a GeometryCollection of truthy geometries is accepted iff every geometry is, and otherwise gets the bad-geometry message |
| ValidatorFacts.FlagOnlyShapesFailures | src/geojson-tools.js:488-602 | for every object that is not a Polygon, MultiLineString or MultiPolygon, nor a Feature wrapping one (the branches where `returnError` reaches a `_.find` callback), the flag changes only the shape of the answer, never whether the object is accepted |
| ConverterSpec.Join | src/geojson-tools.js:134 | `Array.prototype.toString` joins with commas: the text ends with the last part's text |
| ConverterSpec.ParseFloat | src/geojson-tools.js:101 | `parseFloat` always yields a number (possibly NaN), gives every number back unchanged, and gives NaN for `undefined` |
| ConverterSpec.Swap | src/geojson-tools.js:112 | `[parseFloat(a[1]), parseFloat(a[0])]` is a pair of numbers, and a point whose first two values are numbers `[a, b]` becomes `[b, a]` |
| ConverterSpec.Flatten | src/geojson-tools.js:96 | the deep flattening of a value holds no array |
| ConverterSpec.ReachedStopsAtFirstShort | src/geojson-tools.js:129-133 | the `_.find` walk reaches exactly the members before the first one that is too short, and stops on that one |
| ConverterSpec.PolygonProblem | src/geojson-tools.js:248-270 | `toArray` finds a problem in a polygon iff some ring fails one of the three ring checks |
| Converter.SwapPoints | src/geojson-tools.js:110-113 | the `_.each` loop pushes each point swapped, in order |
| Converter.ClosePolygonRing | src/geojson-tools.js:134-136 | the ring is closed by `push(ring[0])` when its text differs from its last point's, in the caller's array itself, and nothing else of that array changes |
| Converter.PolygonRingStep | src/geojson-tools.js:134-141 | one callback on a long enough ring: close it in place, then append its swapped points |
| Converter.CloseRings | src/geojson-tools.js:129-143 | an error iff some ring is shorter than 3; otherwise the swapped closed rings; the caller's array has every ring before the first short one closed |
| Converter.PolygonToGeoJSON | src/geojson-tools.js:124-150 | the Polygon branch: wrap a single ring, close and swap each ring, report the ring-count error; the caller's argument ends as `ArgumentAfter` says |
| Converter.MultiLineStringToGeoJSON | src/geojson-tools.js:151-172 | the MultiLineString branch returns `MultiLineStringGeometry`: the line-count error when the walk meets a line shorter than 2, otherwise every line swapped |
| Converter.SwapRings | src/geojson-tools.js:179-191 | the inner walk flags a short ring iff one exists, and otherwise returns every ring swapped |
| Converter.MultiPolygonToGeoJSON | src/geojson-tools.js:173-201 | the MultiPolygon branch returns `MultiPolygonGeometry`: the error when any polygon holds a ring shorter than 3 (the outer walk never stops), otherwise every polygon's rings swapped |
| Converter.ToGeoJSON | src/geojson-tools.js:85-209 | `toGeoJSON` returns `GeoJSONOf`: a falsy type defaults to "point", the lowercased type selects the case, an unknown type fails; the caller's argument is changed only in the polygon case |
| Converter.LineStringToArray | src/geojson-tools.js:229-244 | the LineString branch returns `LineStringArray`: the LineString error when some point is not an array, otherwise every point swapped |
| Converter.CheckRing | src/geojson-tools.js:248-264 | the three ring checks in order (no length, open, fewer than 4); a clean ring yields its points swapped without the closing one |
| Converter.PolygonToArray | src/geojson-tools.js:245-271 | the Polygon branch returns `PolygonArray`: the first ring problem, otherwise the last ring stripped (or `[]` for no rings) |
| Converter.MultiLineStringToArray | src/geojson-tools.js:279-294 | the MultiLineString branch returns `MultiLineStringArray`: the MultiLineString error when some line has no length, otherwise every line swapped |
| Converter.StripRings | src/geojson-tools.js:298-317 | the inner walk reports a polygon's first ring problem, and otherwise every ring stripped |
| Converter.MultiPolygonToArray | src/geojson-tools.js:295-320 | the MultiPolygon branch returns `MultiPolygonArray`: the problem of the last polygon that has one, otherwise the stripped rings of all polygons in one list |
| Converter.ToArray | src/geojson-tools.js:216-328 | `toArray` returns `ArrayOf`: the gate on `type` and `coordinates`, then the case of the lowercased type, an unknown type failing |
| ConverterFacts.SwapIsPair | src/geojson-tools.js:112 | a swapped point is a pair of numbers, a valid position and plain data |
| ConverterFacts.SwapTwice | src/geojson-tools.js:112 | swapping a pair of numbers twice gives it back |
| ConverterFacts.SwapAllTwice | src/geojson-tools.js:110-113 | swapping a list of number pairs twice gives it back |
| ConverterFacts.CloseAppends | src/geojson-tools.js:134-136 | the close test changes a ring iff it is an array of at least 2 points, and then appends the first point: the text comparison is never equal for such a ring |
| ConverterFacts.WrappedArgumentAfter | src/geojson-tools.js:125-136 | a single ring of at least 3 points passed to the Polygon case is closed in the caller's array |
| ConverterFacts.ListArgumentAfter | src/geojson-tools.js:129-143 | for a list of rings, the caller's array keeps its length, the rings before the first short one are closed and the rest are unchanged |
| ConverterFacts.SwapLinesPlain | src/geojson-tools.js:151-172 | swapped lines are plain data, never a bad line, and rings of number pairs |
| ConverterFacts.ClosedRingShaped | src/geojson-tools.js:134-140 | a closed, swapped ring of at least 3 points is a valid linear ring for the validator |
| ConverterFacts.PointOutput | src/geojson-tools.js:95-107 | the Point case succeeds iff the flattened input has exactly 2 values; its coordinates are those two values exchanged (`[x, y]` of numbers gives `[y, x]`), and its output passes `isGeoJSON` |
| ConverterFacts.ObjectIsNoPoint | src/geojson-tools.js:95-99 | an object without a `length` key flattens to nothing, so the Point case returns the single-set-of-coordinates error |
| ConverterFacts.NullCoordinateIsNaN | src/geojson-tools.js:95-107 | `toGeoJSON([1, null])` returns the Point `[NaN, 1]` rather than throwing |
| ConverterFacts.NotValidIsNoPoint | test/index.js:28-33 | `toGeoJSON({"not": "valid"})` returns the Point error |
| ConverterFacts.PlainInput | src/geojson-tools.js:85-209 | input with no `null` and no object is within the modelled domain of every branch, given arrays for the rings the polygon walk reaches |
| ConverterFacts.LineStringOutput | src/geojson-tools.js:108-123 | the LineString case always succeeds; its coordinates hold, in order, each input point with its coordinates exchanged; its output passes `isGeoJSON` iff the input has at least 2 points, and otherwise gets the short-LineString message |
| ConverterFacts.MultiPointOutput | src/geojson-tools.js:108-123 | the MultiPoint case always succeeds; its coordinates hold, in order, each input point with its coordinates exchanged; its output passes `isGeoJSON` iff the input has at least 2 points |
| ConverterFacts.MultiLineStringOutput | src/geojson-tools.js:151-172 | a successful MultiLineString output passes `isGeoJSON` iff it has at least 2 lines |
| ConverterFacts.PolygonCoordinates | src/geojson-tools.js:129-143 | closed, swapped rings are plain data and valid linear rings |
| ConverterFacts.PolygonOutput | src/geojson-tools.js:124-150 | a successful Polygon output passes `isGeoJSON` in both modes |
| ConverterFacts.MultiPolygonCoordinates | src/geojson-tools.js:177-194 | swapped polygons are plain data and hold no ring the validator rejects |
| ConverterFacts.MultiPolygonOutput | src/geojson-tools.js:173-201 | a successful MultiPolygon output passes `isGeoJSON` in both modes |
| ConverterFacts.CaseOfName | src/geojson-tools.js:225 | each geometry type name, lowercased, selects its own case |
| ConverterFacts.ArrayOfGeometry | src/geojson-tools.js:216-328 | on a geometry object built by `toGeoJSON`, `toArray` takes the branch of its type |
| ConverterFacts.AllArraysIff | src/geojson-tools.js:233-240 | the LineString walk finds no error iff every point is an array |
| ConverterFacts.AllHaveLengthIff | src/geojson-tools.js:282-293 | the MultiLineString walk finds no error iff every line has a non-zero length |
| ConverterFacts.ReachedAllLong | src/geojson-tools.js:129-143 | when no member is too short, the walk reaches every member |
| ConverterFacts.SwapLinesTwice | src/geojson-tools.js:159-163 | swapping lines of number pairs twice gives them back |
| ConverterFacts.PointRoundTrip | src/geojson-tools.js:95-107 | `toArray(toGeoJSON(p, "point"))` gives back a pair of numbers `p` |
| ConverterFacts.LineStringRoundTrip | src/geojson-tools.js:229-244 | `toArray(toGeoJSON(points, "linestring"))` gives back the points |
| ConverterFacts.MultiPointRoundTrip | src/geojson-tools.js:272-278 | `toArray(toGeoJSON(points, "multipoint"))` gives back the points |
| ConverterFacts.MultiLineStringArrayTrip | src/geojson-tools.js:279-294 | `toArray`'s MultiLineString branch gives back swapped lines of at least 2 pairs |
| ConverterFacts.MultiLineStringRoundTrip | src/geojson-tools.js:151-172 | `toArray(toGeoJSON(lines, "multilinestring"))` gives back the lines |
| ConverterFacts.ClosedRingTrip | src/geojson-tools.js:248-264 | a ring closed and swapped by `toGeoJSON` passes the three ring checks of `toArray`, and stripping gives the original ring back |
| ConverterFacts.PolygonArrayTrip | src/geojson-tools.js:245-271 | on closed, swapped rings `toArray`'s Polygon branch returns only the last ring, because `array = poly` rebinds the result after each ring |
| ConverterFacts.PolygonRoundTrip | src/geojson-tools.js:124-150 | `toArray(toGeoJSON(ring, "polygon"))` gives back a single ring of at least 3 pairs, and the caller's ring has been closed |
| ConverterFacts.PolygonKeepsLastRing | src/geojson-tools.js:265-268 | `toArray(toGeoJSON(rings, "polygon"))` on several rings gives back only the last ring |
| ConverterWalks.ReachedShortIff | src/geojson-tools.js:129-143 | the walk stops early iff some member is too short |
| ConverterWalks.PolygonFailsIff | src/geojson-tools.js:129-149 | the Polygon case fails iff some ring is shorter than 3, and then with the ring-count message |
| ConverterWalks.MultiLineStringFailsIff | src/geojson-tools.js:154-171 | the MultiLineString case fails iff some line is shorter than 2, and then with the line-count message |
| ConverterWalks.AnyShortRingIff | src/geojson-tools.js:177-194 | the walk flags a short ring iff some polygon holds a ring shorter than 3 |
| ConverterWalks.MultiPolygonFailsIff | src/geojson-tools.js:173-201 | the MultiPolygon case fails iff some polygon holds a ring shorter than 3, and then with its message; the outer walk goes on after an error |
| ConverterWalks.PolygonProblemFirst | src/geojson-tools.js:248-261 | a reported problem is that of the first ring that has one |
| ConverterWalks.LastPolygonProblemIff | src/geojson-tools.js:297-319 | the MultiPolygon branch of `toArray` succeeds iff no polygon has a problem, and otherwise reports the problem of the last polygon with one |
| ConverterWalks.KindIgnoresCase | src/geojson-tools.js:93 | a type name and its lowercase give the same `toGeoJSON` result |
| ConverterWalks.UnsupportedKind | src/geojson-tools.js:202-204 | `toGeoJSON` reports an unsupported type iff no case matches the lowercased name |
| ConverterWalks.ArrayGate | src/geojson-tools.js:222-225 | `toArray` rejects an object without a truthy `type` or `coordinates` (a `null` `coordinates` included), then one whose lowercased type matches no case |
| ConverterWalks.NullCoordinatesIsNotGeoJSON | src/geojson-tools.js:222-223 | `toArray({type: "Point", coordinates: null})` is the not-a-GeoJSON error |
| ConverterWalks.OpenRingClean | src/geojson-tools.js:298-311 | a closed ring of at least 4 points, swapped, passes the three ring checks |
| ConverterWalks.OpenRingStripped | src/geojson-tools.js:312-315 | stripping a swapped closed ring gives it back without its closing point |
| ConverterWalks.ClosedPolygonClean | src/geojson-tools.js:298-317 | swapped closed rings raise no problem |
| ConverterWalks.ClosedPolygonStripped | src/geojson-tools.js:312-315 | swapped closed rings, stripped, are the opened rings |
| ConverterWalks.ClosedPolygonsClean | src/geojson-tools.js:297-319 | swapped polygons of closed rings raise no problem |
| ConverterWalks.ClosedPolygonsStripped | src/geojson-tools.js:297-319 | the rings collected from swapped polygons are all opened rings, in order, with the polygon structure gone |
| ConverterWalks.MultiPolygonArrayTrip | src/geojson-tools.js:295-320 | `toArray`'s MultiPolygon branch on swapped closed polygons gives one flat list of opened rings |
| ConverterWalks.MultiPolygonFlattens | src/geojson-tools.js:295-320 | `toArray(toGeoJSON(polygons, "multipolygon"))` gives back neither the polygons nor their rings as given: every ring loses its closing point and all rings land in one list |

## Left out

- `getDistance`, `_toRadian` and `complexify` are not modelled: they are floating-point geometry, outside the validator and the two converters.
- Numbers are finite reals or NaN; -0 and the infinities are not modelled.
- `parseFloat` of a text and `Number.prototype.toString` are the `NumberSyntax` parameter rather than JavaScript's number grammar. `parseFloat` of a number is the number itself, as `parseFloat(String(x)) === x` holds for every finite `x`; no round trip depends on the parameter.
- An `Error` object is modelled as `Fail` with its message.
- The Point error message in `toGeoJSON` ends with `JSON.stringify(array)`; the model keeps the fixed prefix only.
- `toLowerCase` is modelled on ASCII letters only. No other character lowercases to a letter of the six type names, so the branch taken is the same.
- The validator is modelled on `Supported` values. `Supported` leaves out the inputs on which the JavaScript reads a property of `null`: the object itself, a collection member, or an element of `coordinates` at the depth its type walks (`WalkDepth`). It also leaves out some inputs on which the JavaScript returns normally:
  - an object inside the walked `coordinates` of a MultiPoint, LineString, Polygon, MultiLineString or MultiPolygon, whose keys (`length`, `"0"`, `"1"`) and iteration order under `_.find` are not modelled;
  - a `null` at a walked depth that the `_.find` walk never reaches, because it stops earlier at an invalid element.
- `toGeoJSON` is modelled on `GeoJSONInput`, the inputs on which the branch the type selects does not throw:
  - in the point branch, `array` is no object with a `length` key, and neither of the two values `parseFloat` reads is an object with a `toString` key (`String()` of such an object throws);
  - in the other branches, `array` holds no object at all, so an object point, whose `a[0]` and `a[1]` read the keys `"0"` and `"1"`, is not modelled;
  - no `null` stands where the branch reads a property (`a[1]` of a point, `.length` of a polygon ring or a multilinestring line, `.length` of a multipolygon's ring);
  - the rings the polygon walk reaches are arrays (a string ring throws at `push`, a number or boolean at `toString`);
  - a `null` that the walk never reaches is allowed, so these conditions are exact except for objects.
- Converter.PolygonToGeoJSON: an input holding the same ring array more than once (aliasing) is not modelled. Rings are values, so a ring shared twice is closed once per occurrence in the model, while the JavaScript tests the already-closed array the second time.
- `toArray` is modelled on `ArrayInput`: a non-null input whose truthy `type` is a string and whose truthy `coordinates` holds no `null` and no object. A falsy `coordinates`, `null` included, is covered. Inside `coordinates`, a `null` makes the JavaScript throw where a property of it is read and gives NaN where `parseFloat` reads it (`toArray({type: "Point", coordinates: [1, null]})` is `[NaN, 1]`); the model covers neither.
- In `toArray`'s Polygon branch, `array.push(poly)` is pushed into an array that is immediately rebound and never returned; the model leaves out that push.
- Properties other than `type`, `coordinates`, `geometry`, `properties`, `features` and `geometries` are not read by the code and are not modelled.
- Validator.RingFlags, Validator.PointFlags, Validator.LineFlags, Validator.PolygonFlags and Validator.MemberFlags carry only a length contract: they are the callback results that `_.find` inspects, and what they mean is stated by the rule lemmas in `ValidatorFacts`.
