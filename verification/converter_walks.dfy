/**
  Where the converters' `_.find` and `_.each` walks stop and which error they
  report, how the letter case of a type name is ignored, and what `toArray`
  makes of a MultiPolygon built by `toGeoJSON`.
 */
module ConverterWalks {
  import opened Js
  import opened Validator
  import opened ConverterSpec
  import opened ConverterFacts

  // ---------------------------------------------------------------------------
  // `toGeoJSON`: the walks that stop at a short member

  /** The walk stops short of the end exactly when some member is shorter than `n`. */
  lemma ReachedShortIff(members: seq<Json>, n: nat)
    ensures Reached(members, n) < |members| <==> exists i :: 0 <= i < |members| && ShorterThan(members[i], n)
  {
    ReachedStopsAtFirstShort(members, n);
    if Reached(members, n) < |members| {
      assert ShorterThan(members[Reached(members, n)], n);
    }
  }

  /** The Polygon branch fails exactly when one of its rings has fewer than 3 members. */
  lemma PolygonFailsIff(input: Json, ns: NumberSyntax)
    requires PolygonInput(input)
    ensures var rings := PolygonRings(input);
            PolygonGeometry(input, ns).Fail? <==> exists i :: 0 <= i < |rings| && ShorterThan(rings[i], 3)
    ensures PolygonGeometry(input, ns).Fail? ==> PolygonGeometry(input, ns).message == RingCountMessage
  {
    ReachedShortIff(PolygonRings(input), 3);
  }

  /** The MultiLineString branch fails exactly when one of its lines has fewer than 2 members. */
  lemma MultiLineStringFailsIff(input: Json, ns: NumberSyntax)
    ensures var lines := Elements(input);
            MultiLineStringGeometry(input, ns).Fail? <==> exists i :: 0 <= i < |lines| && ShorterThan(lines[i], 2)
    ensures MultiLineStringGeometry(input, ns).Fail? ==> MultiLineStringGeometry(input, ns).message == LineCountMessage
  {
    ReachedShortIff(Elements(input), 2);
  }

  /** A polygon holding a ring with fewer than 3 members. */
  predicate HasShortRing(polygon: Json) {
    exists j :: 0 <= j < |Elements(polygon)| && ShorterThan(Elements(polygon)[j], 3)
  }

  /** Some polygon of the list holds a short ring, wherever it sits. */
  lemma {:induction false} AnyShortRingIff(polygons: seq<Json>)
    ensures AnyShortRing(polygons) <==> exists i :: 0 <= i < |polygons| && HasShortRing(polygons[i])
  {
    if |polygons| > 0 {
      var last := |polygons| - 1;
      var init := polygons[..last];
      var rings := Elements(polygons[last]);
      assert AnyShortRing(polygons) == (AnyShortRing(init) || Reached(rings, 3) < |rings|);
      assert Reached(rings, 3) < |rings| <==> HasShortRing(polygons[last]) by {
        ReachedShortIff(rings, 3);
      }
      assert AnyShortRing(init) <==> exists i :: 0 <= i < last && HasShortRing(polygons[i]) by {
        AnyShortRingIff(init);
        assert forall i :: 0 <= i < last ==> init[i] == polygons[i];
      }
    }
  }

  /**
    The MultiPolygon branch fails exactly when some polygon holds a ring with
    fewer than 3 members: the outer walk never stops, so a short ring in any
    polygon is found.
   */
  lemma MultiPolygonFailsIff(input: Json, ns: NumberSyntax)
    ensures var polygons := Elements(input);
            MultiPolygonGeometry(input, ns).Fail? <==> exists i :: 0 <= i < |polygons| && HasShortRing(polygons[i])
    ensures MultiPolygonGeometry(input, ns).Fail? ==> MultiPolygonGeometry(input, ns).message == PolygonRingCountMessage
  {
    AnyShortRingIff(Elements(input));
  }

  // ---------------------------------------------------------------------------
  // `toArray`: which ring's problem is reported

  /** The problem reported for a polygon is that of its first ring with a problem. */
  lemma {:induction false} PolygonProblemFirst(rings: seq<Json>, ns: NumberSyntax)
    ensures PolygonProblem(rings, ns).Some? ==>
              exists i :: 0 <= i < |rings| && PolygonProblem(rings, ns) == RingProblem(rings[i], ns) &&
                forall j :: 0 <= j < i ==> RingProblem(rings[j], ns).None?
  {
    if |rings| > 0 && RingProblem(rings[0], ns).None? {
      var rest := rings[1..];
      PolygonProblemFirst(rest, ns);
      if PolygonProblem(rest, ns).Some? {
        var i :| 0 <= i < |rest| && PolygonProblem(rest, ns) == RingProblem(rest[i], ns) &&
                 forall j :: 0 <= j < i ==> RingProblem(rest[j], ns).None?;
        assert forall j :: 1 <= j < i + 1 ==> rings[j] == rest[j - 1];
        assert PolygonProblem(rings, ns) == RingProblem(rings[i + 1], ns);
      }
    }
  }

  /** The problem `toArray` finds in each polygon, if any. */
  function Problems(polygons: seq<Json>, ns: NumberSyntax): (r: seq<Option<string>>)
    ensures |r| == |polygons|
  {
    seq(|polygons|, i requires 0 <= i < |polygons| => PolygonProblem(Elements(polygons[i]), ns))
  }

  /** The last problem of a list, searching from its end. */
  function LastSome(problems: seq<Option<string>>): Option<string> {
    if |problems| == 0 then None
    else if problems[|problems| - 1].Some? then problems[|problems| - 1]
    else LastSome(problems[..|problems| - 1])
  }

  /** `LastPolygonProblem` is that search over each polygon's problem. */
  lemma {:induction false} LastPolygonProblemIsLastSome(polygons: seq<Json>, ns: NumberSyntax)
    ensures LastPolygonProblem(polygons, ns) == LastSome(Problems(polygons, ns))
  {
    if |polygons| > 0 {
      var init := polygons[..|polygons| - 1];
      LastPolygonProblemIsLastSome(init, ns);
      assert Problems(polygons, ns)[..|polygons| - 1] == Problems(init, ns);
    }
  }

  /** The search finds nothing exactly when there is no problem, and otherwise the last one. */
  lemma {:induction false} LastSomeIsLast(problems: seq<Option<string>>)
    ensures LastSome(problems).None? <==> forall i :: 0 <= i < |problems| ==> problems[i].None?
    ensures LastSome(problems).Some? ==>
              exists i :: 0 <= i < |problems| && LastSome(problems) == problems[i] &&
                forall j :: i < j < |problems| ==> problems[j].None?
  {
    if |problems| > 0 {
      var init := problems[..|problems| - 1];
      LastSomeIsLast(init);
      if problems[|problems| - 1].None? && LastSome(init).Some? {
        var i :| 0 <= i < |init| && LastSome(init) == init[i] && forall j :: i < j < |init| ==> init[j].None?;
        assert LastSome(problems) == problems[i];
      }
    }
  }

  /**
    `toArray` reports no MultiPolygon problem exactly when every polygon is
    clean; otherwise the problem of the LAST polygon that has one, since each
    polygon's error overwrites the previous one.
   */
  lemma LastPolygonProblemIff(polygons: seq<Json>, ns: NumberSyntax)
    ensures var ps := Problems(polygons, ns);
            LastPolygonProblem(polygons, ns).None? <==> forall i :: 0 <= i < |polygons| ==> ps[i].None?
    ensures var ps := Problems(polygons, ns);
            LastPolygonProblem(polygons, ns).Some? ==>
              exists i :: 0 <= i < |polygons| && LastPolygonProblem(polygons, ns) == ps[i] &&
                forall j :: i < j < |polygons| ==> ps[j].None?
  {
    LastPolygonProblemIsLastSome(polygons, ns);
    LastSomeIsLast(Problems(polygons, ns));
  }

  // ---------------------------------------------------------------------------
  // Letter case

  lemma LowerTwice(s: string)
    ensures Lower(Lower(s)) == Lower(s)
  {
  }

  /**
    `toGeoJSON` lowercases its type name, so a name and its lowercase select
    the same branch and build the same object.
   */
  lemma KindIgnoresCase(input: Json, s: string, ns: NumberSyntax)
    requires GeoJSONInput(input, Some(s))
    ensures KindName(Some(Lower(s))) == KindName(Some(s))
    ensures GeoJSONInput(input, Some(Lower(s))) && GeoJSONOf(input, Some(Lower(s)), ns) == GeoJSONOf(input, Some(s), ns)
  {
    LowerTwice(s);
  }

  // ---------------------------------------------------------------------------
  // The error branches of the two `switch` statements

  /** `toGeoJSON` reports an unsupported type exactly when no `case` matches the lowercased name. */
  lemma UnsupportedKind(input: Json, kind: Option<string>, ns: NumberSyntax)
    requires GeoJSONInput(input, kind)
    ensures GeoJSONOf(input, kind, ns) == Fail(UnsupportedKindMessage) <==> Case(KindName(kind)).None?
  {
    var k := Case(KindName(kind));
    if k == Some(Polygon) {
      assert RingCountMessage != UnsupportedKindMessage;
    } else if k == Some(MultiLineString) {
      assert LineCountMessage != UnsupportedKindMessage;
    } else if k == Some(MultiPolygon) {
      assert PolygonRingCountMessage != UnsupportedKindMessage;
    } else if k == Some(Point) {
      assert PointCountMessage != UnsupportedKindMessage;
    }
  }

  /**
    `toArray` first rejects an object without a truthy `type` or `coordinates`,
    then one whose lowercased `type` matches no `case`.
   */
  lemma ArrayGate(geo: Json, ns: NumberSyntax)
    requires ArrayInput(geo)
    ensures !Present(Get(geo, "type")) || !Present(Get(geo, "coordinates")) ==>
              ArrayOf(geo, ns) == Fail(NotGeoJSONMessage)
    ensures Present(Get(geo, "type")) && Present(Get(geo, "coordinates")) &&
            Case(Lower(Get(geo, "type").value.s)).None? ==>
              ArrayOf(geo, ns) == Fail(UnknownTypeMessage)
  {
  }

  /** `toArray({type: "Point", coordinates: null})` is the not-a-GeoJSON error of the gate. */
  lemma NullCoordinatesIsNotGeoJSON(ns: NumberSyntax)
    ensures var geo := JObj(map["type" := JStr("Point"), "coordinates" := JNull]);
            ArrayInput(geo) && ArrayOf(geo, ns) == Fail(NotGeoJSONMessage)
  {
    var geo := JObj(map["type" := JStr("Point"), "coordinates" := JNull]);
    assert Get(geo, "coordinates") == Some(JNull);
  }

  // ---------------------------------------------------------------------------
  // `toArray(toGeoJSON(polygons, "multipolygon"))`

  /** A ring of at least four members whose last member repeats the first. */
  predicate ClosedRing(ring: Json) {
    ring.JArr? && |ring.items| >= 4 && ring.items[0] == ring.items[|ring.items| - 1]
  }

  /** A closed ring of number pairs. */
  predicate ClosedPairRing(ring: Json) {
    ClosedRing(ring) && PairLine(ring)
  }

  /** A polygon whose every ring is a closed ring of number pairs. */
  predicate ClosedPolygon(polygon: Json) {
    polygon.JArr? && forall j :: 0 <= j < |polygon.items| ==> ClosedPairRing(polygon.items[j])
  }

  /** A ring without its closing point. */
  function Opened(ring: Json): Json {
    if ring.JArr? && |ring.items| > 0 then JArr(ring.items[..|ring.items| - 1]) else JArr([])
  }

  /** Each ring of a polygon without its closing point. */
  function OpenedRings(rings: seq<Json>): (r: seq<Json>)
    ensures |r| == |rings|
  {
    seq(|rings|, i requires 0 <= i < |rings| => Opened(rings[i]))
  }

  /** The opened rings of all polygons, in one list: the polygon structure is gone. */
  function OpenedPolygons(polygons: seq<Json>): seq<Json> {
    if |polygons| == 0 then []
    else OpenedPolygons(polygons[..|polygons| - 1]) + OpenedRings(Elements(polygons[|polygons| - 1]))
  }

  /** `StrippedAll` strips each ring. */
  lemma {:induction false} StrippedAllAt(rings: seq<Json>, ns: NumberSyntax)
    ensures forall i :: 0 <= i < |rings| ==> StrippedAll(rings, ns)[i] == Stripped(rings[i], ns)
  {
    if |rings| > 0 {
      var init := rings[..|rings| - 1];
      StrippedAllAt(init, ns);
      assert forall i :: 0 <= i < |init| ==> rings[i] == init[i];
    }
  }

  /** A closed ring, swapped by `toGeoJSON`, passes `toArray`'s three ring checks. */
  lemma OpenRingClean(ring: Json, ns: NumberSyntax)
    requires ClosedRing(ring)
    ensures RingProblem(JArr(SwapAll(ring.items, ns)), ns).None?
  {
    var swapped := SwapAll(ring.items, ns);
    assert swapped[0] == swapped[|swapped| - 1] by {
      SwapAllAt(ring.items, ns);
    }
  }

  /** Stripping a closed ring of number pairs swapped by `toGeoJSON` opens it. */
  lemma OpenRingStripped(ring: Json, ns: NumberSyntax)
    requires ClosedPairRing(ring)
    ensures Stripped(JArr(SwapAll(ring.items, ns)), ns) == Opened(ring)
  {
    var n := |ring.items|;
    assert SwapAll(ring.items, ns)[..n - 1] == SwapAll(ring.items[..n - 1], ns);
    SwapAllTwice(ring.items[..n - 1], ns);
  }

  lemma CleanAt(rings: seq<Json>, j: nat, ns: NumberSyntax)
    requires j < |rings| && ClosedRing(rings[j])
    ensures RingProblem(SwapLines(rings, ns)[j], ns).None?
  {
    SwapLinesAt(rings, ns);
    OpenRingClean(rings[j], ns);
  }

  lemma StrippedAt(rings: seq<Json>, j: nat, ns: NumberSyntax)
    requires j < |rings| && ClosedPairRing(rings[j])
    ensures StrippedAll(SwapLines(rings, ns), ns)[j] == Opened(rings[j])
  {
    SwapLinesAt(rings, ns);
    StrippedAllAt(SwapLines(rings, ns), ns);
    OpenRingStripped(rings[j], ns);
  }

  /** The rings of a closed polygon, swapped, are clean. */
  lemma ClosedPolygonClean(rings: seq<Json>, ns: NumberSyntax)
    requires forall j :: 0 <= j < |rings| ==> ClosedRing(rings[j])
    ensures PolygonProblem(SwapLines(rings, ns), ns).None?
  {
    forall j | 0 <= j < |rings| ensures RingProblem(SwapLines(rings, ns)[j], ns).None? {
      CleanAt(rings, j, ns);
    }
  }

  /** The rings of a closed polygon, swapped and stripped, are the opened rings. */
  lemma ClosedPolygonStripped(rings: seq<Json>, ns: NumberSyntax)
    requires forall j :: 0 <= j < |rings| ==> ClosedPairRing(rings[j])
    ensures StrippedAll(SwapLines(rings, ns), ns) == OpenedRings(rings)
  {
    forall j | 0 <= j < |rings| ensures StrippedAll(SwapLines(rings, ns), ns)[j] == OpenedRings(rings)[j] {
      StrippedAt(rings, j, ns);
    }
  }

  lemma PolygonCleanAt(polygons: seq<Json>, i: nat, ns: NumberSyntax)
    requires i < |polygons| && ClosedPolygon(polygons[i])
    ensures Problems(SwapPolygons(polygons, ns), ns)[i].None?
  {
    SwapPolygonsAt(polygons, ns);
    ClosedPolygonClean(polygons[i].items, ns);
  }

  /** Every polygon is clean, so `toArray` reports nothing. */
  lemma ClosedPolygonsClean(polygons: seq<Json>, ns: NumberSyntax)
    requires forall i :: 0 <= i < |polygons| ==> ClosedPolygon(polygons[i])
    ensures LastPolygonProblem(SwapPolygons(polygons, ns), ns).None?
  {
    var c := SwapPolygons(polygons, ns);
    forall i | 0 <= i < |c| ensures Problems(c, ns)[i].None? {
      PolygonCleanAt(polygons, i, ns);
    }
    LastPolygonProblemIff(c, ns);
  }

  /** The swapped polygons of a list with one more polygon. */
  lemma SwapPolygonsLast(polygons: seq<Json>, ns: NumberSyntax)
    requires |polygons| > 0
    ensures var last := |polygons| - 1;
            var c := SwapPolygons(polygons, ns);
            c[..last] == SwapPolygons(polygons[..last], ns) &&
            Elements(c[last]) == SwapLines(Elements(polygons[last]), ns)
  {
  }

  /** The last swapped polygon, stripped, gives its opened rings. */
  lemma LastPolygonStripped(polygons: seq<Json>, ns: NumberSyntax)
    requires |polygons| > 0 && ClosedPolygon(polygons[|polygons| - 1])
    ensures var last := |polygons| - 1;
            StrippedAll(Elements(SwapPolygons(polygons, ns)[last]), ns) == OpenedRings(Elements(polygons[last]))
  {
    SwapPolygonsLast(polygons, ns);
    ClosedPolygonStripped(polygons[|polygons| - 1].items, ns);
  }

  /** The rings `toArray` collects from the swapped polygons are the opened rings, in order. */
  lemma {:induction false} ClosedPolygonsStripped(polygons: seq<Json>, ns: NumberSyntax)
    requires forall i :: 0 <= i < |polygons| ==> ClosedPolygon(polygons[i])
    ensures AllStripped(SwapPolygons(polygons, ns), ns) == OpenedPolygons(polygons)
  {
    if |polygons| > 0 {
      var last := |polygons| - 1;
      var init := polygons[..last];
      var c := SwapPolygons(polygons, ns);
      assert AllStripped(c[..last], ns) == OpenedPolygons(init) by {
        assert forall i :: 0 <= i < |init| ==> init[i] == polygons[i];
        ClosedPolygonsStripped(init, ns);
        SwapPolygonsLast(polygons, ns);
      }
      assert StrippedAll(Elements(c[last]), ns) == OpenedRings(Elements(polygons[last])) by {
        LastPolygonStripped(polygons, ns);
      }
      assert AllStripped(c, ns) == AllStripped(c[..last], ns) + StrippedAll(Elements(c[last]), ns);
      assert OpenedPolygons(polygons) == OpenedPolygons(init) + OpenedRings(Elements(polygons[last]));
    }
  }

  /** `toArray`'s MultiPolygon branch on the coordinates `toGeoJSON` builds from closed polygons. */
  lemma MultiPolygonArrayTrip(polygons: seq<Json>, ns: NumberSyntax)
    requires forall i :: 0 <= i < |polygons| ==> ClosedPolygon(polygons[i])
    ensures MultiPolygonArray(SwapPolygons(polygons, ns), ns) == Done(JArr(OpenedPolygons(polygons)))
  {
    ClosedPolygonsClean(polygons, ns);
    ClosedPolygonsStripped(polygons, ns);
  }

  /** Closed polygons have no short ring and are plain data. */
  lemma ClosedPolygonsInput(polygons: seq<Json>)
    requires forall i :: 0 <= i < |polygons| ==> ClosedPolygon(polygons[i])
    ensures !AnyShortRing(polygons) && PlainData(JArr(polygons))
  {
    AnyShortRingIff(polygons);
    forall i | 0 <= i < |polygons| ensures !HasShortRing(polygons[i]) && PlainData(polygons[i]) {
      LinesPlain(polygons[i].items);
    }
  }

  /** `toGeoJSON` with kind "multipolygon" in any letter case takes the MultiPolygon branch. */
  lemma GeoJSONOfMultiPolygon(input: Json, kind: Option<string>, ns: NumberSyntax)
    requires GeoJSONInput(input, kind) && Case(KindName(kind)) == Some(MultiPolygon)
    ensures GeoJSONOf(input, kind, ns) == MultiPolygonGeometry(input, ns)
  {
  }

  /** `toArray` on a MultiPolygon object takes the MultiPolygon branch. */
  lemma ArrayOfMultiPolygon(c: seq<Json>, ns: NumberSyntax)
    requires PlainData(JArr(c))
    ensures ArrayInput(Geometry("MultiPolygon", JArr(c))) && ArrayOf(Geometry("MultiPolygon", JArr(c)), ns) == MultiPolygonArray(c, ns)
  {
    ArrayOfGeometry(MultiPolygon, c, ns);
  }

  /** `toGeoJSON` builds a MultiPolygon from closed polygons, swapping their points only. */
  lemma ClosedPolygonsGeoJSON(polygons: seq<Json>, kind: Option<string>, ns: NumberSyntax)
    requires Case(KindName(kind)) == Some(MultiPolygon)
    requires forall i :: 0 <= i < |polygons| ==> ClosedPolygon(polygons[i])
    ensures GeoJSONInput(JArr(polygons), kind)
    ensures GeoJSONOf(JArr(polygons), kind, ns) == Done(Geometry("MultiPolygon", JArr(SwapPolygons(polygons, ns))))
  {
    ClosedPolygonsInput(polygons);
    PlainInput(JArr(polygons), kind);
    GeoJSONOfMultiPolygon(JArr(polygons), kind, ns);
  }

  /** `toArray` on that MultiPolygon gives the opened rings of all polygons in one list. */
  lemma ClosedPolygonsArray(polygons: seq<Json>, ns: NumberSyntax)
    requires forall i :: 0 <= i < |polygons| ==> ClosedPolygon(polygons[i])
    ensures var g := Geometry("MultiPolygon", JArr(SwapPolygons(polygons, ns)));
            ArrayInput(g) && ArrayOf(g, ns) == Done(JArr(OpenedPolygons(polygons)))
  {
    MultiPolygonCoordinates(polygons, ns);
    ArrayOfMultiPolygon(SwapPolygons(polygons, ns), ns);
    MultiPolygonArrayTrip(polygons, ns);
  }

  /**
    `toArray(toGeoJSON(polygons, "multipolygon"))` on polygons whose rings are
    closed does not give the polygons back: it gives one flat list of all
    their rings, each without its closing point.
   */
  lemma MultiPolygonFlattens(polygons: seq<Json>, kind: Option<string>, ns: NumberSyntax)
    requires Case(KindName(kind)) == Some(MultiPolygon)
    requires forall i :: 0 <= i < |polygons| ==> ClosedPolygon(polygons[i])
    ensures GeoJSONInput(JArr(polygons), kind) && GeoJSONOf(JArr(polygons), kind, ns).Done?
    ensures var g := GeoJSONOf(JArr(polygons), kind, ns).value;
            ArrayInput(g) && ArrayOf(g, ns) == Done(JArr(OpenedPolygons(polygons)))
  {
    ClosedPolygonsGeoJSON(polygons, kind, ns);
    ClosedPolygonsArray(polygons, ns);
  }
}
