/**
 * The pure parts of frontend/src/components/MapComponent.jsx: `layerToWKT`,
 * which writes a drawn polygon as an OGC Well-Known Text polygon (section 7
 * of OGC 06-103r4, Simple Features Access, Part 1) with its ring closed, and
 * the point list `HeatmapLayer` hands to the heat layer. Numbers are written
 * with the JavaScript number-to-text conversion `fmt`.
 */
module MapWkt {
  import opened Wrappers
  import opened JsValues
  import Text
  import Seqs

  datatype LatLng = LatLng(lat: real, lng: real)

  /** What `layer.getLatLngs()` returns: one ring, or an array of rings with the outer ring first. */
  datatype LatLngs = Ring(points: seq<LatLng>) | Rings(rings: seq<seq<LatLng>>)

  /** A drawn layer; `latLngs` is None for a layer without `getLatLngs`. */
  datatype Layer = Layer(latLngs: Option<LatLngs>)

  const WktPrefix: string := "POLYGON(("
  const WktSuffix: string := "))"

  /** The ring written out: the first ring of a nested array, else the array itself. */
  function OuterRing(raw: LatLngs): seq<LatLng>
  {
    match raw
    case Ring(points) => points
    case Rings(rings) => if |rings| > 0 then rings[0] else []
  }

  /** One vertex as `lng lat`, x before y. */
  function CoordText(ll: LatLng, fmt: real -> string): string
  {
    fmt(ll.lng) + " " + fmt(ll.lat)
  }

  /** The vertices of the ring, then the first vertex again. */
  function ClosedCoords(ring: seq<LatLng>, fmt: real -> string): (coords: seq<string>)
    requires |ring| > 0
    ensures |coords| == |ring| + 1
    ensures forall i :: 0 <= i < |ring| ==> coords[i] == CoordText(ring[i], fmt)
    ensures coords[|ring|] == coords[0]
  {
    seq(|ring|, i requires 0 <= i < |ring| => CoordText(ring[i], fmt)) + [CoordText(ring[0], fmt)]
  }

  /** `layerToWKT(layer)`: None for a layer without vertices. */
  function LayerToWkt(layer: Layer, fmt: real -> string): (wkt: Option<string>)
    ensures wkt.None? <==> layer.latLngs.None? || |OuterRing(layer.latLngs.value)| == 0
    ensures wkt.Some? ==> Text.StartsWith(wkt.value, WktPrefix)
  {
    match layer.latLngs
    case None => None
    case Some(raw) =>
      var ring := OuterRing(raw);
      if |ring| == 0 then None
      else
        var w := WktPrefix + Text.Join(ClosedCoords(ring, fmt), ',') + WktSuffix;
        assert w[..|WktPrefix|] == WktPrefix;
        Some(w)
  }

  // ---------------------------------------------------------------------
  // Reading the text back

  /** `x y` as the pair of its two number texts. */
  function ReadPair(coord: string): Option<(string, string)>
  {
    var parts := Text.Split(coord, ' ');
    if |parts| == 2 then Some((parts[0], parts[1])) else None
  }

  /** Each coordinate text as its pair, or None when one is not `x y`. */
  function ReadCoords(coords: seq<string>): Option<seq<(string, string)>>
  {
    if forall i :: 0 <= i < |coords| ==> ReadPair(coords[i]).Some? then
      Some(seq(|coords|, i requires 0 <= i < |coords| => ReadPair(coords[i]).value))
    else None
  }

  /** The coordinate pairs of a one-ring polygon text, in order. */
  function ReadPolygon(wkt: string): Option<seq<(string, string)>>
  {
    if |wkt| >= |WktPrefix| + |WktSuffix| && wkt[..|WktPrefix|] == WktPrefix && wkt[|wkt| - |WktSuffix|..] == WktSuffix then
      ReadCoords(Text.Split(wkt[|WktPrefix|..|wkt| - |WktSuffix|], ','))
    else None
  }

  lemma ReadFramed(body: string)
    ensures ReadPolygon(WktPrefix + body + WktSuffix) == ReadCoords(Text.Split(body, ','))
  {
    var w := WktPrefix + body + WktSuffix;
    assert w[..|WktPrefix|] == WktPrefix;
    assert w[|w| - |WktSuffix|..] == WktSuffix;
    assert w[|WktPrefix|..|w| - |WktSuffix|] == body;
  }

  /** Number texts free of the two separators, as JavaScript writes numbers. */
  ghost predicate PlainNumbers(fmt: real -> string)
  {
    forall x :: ',' !in fmt(x) && ' ' !in fmt(x)
  }

  /** The (x, y) texts of the closed ring: vertex i for i < n, vertex 0 at position n. */
  function ClosedPairs(ring: seq<LatLng>, fmt: real -> string): (pairs: seq<(string, string)>)
    requires |ring| > 0
    ensures |pairs| == |ring| + 1 && pairs[|ring|] == pairs[0]
  {
    seq(|ring| + 1, i requires 0 <= i <= |ring| =>
      var ll := if i < |ring| then ring[i] else ring[0]; (fmt(ll.lng), fmt(ll.lat)))
  }

  lemma ReadCoordText(ll: LatLng, fmt: real -> string)
    requires PlainNumbers(fmt)
    ensures ReadPair(CoordText(ll, fmt)) == Some((fmt(ll.lng), fmt(ll.lat)))
  {
    var a, b := fmt(ll.lng), fmt(ll.lat);
    assert ' ' !in a && ' ' !in b;
    assert Text.Join([a, b], ' ') == CoordText(ll, fmt);
    Text.SplitJoin([a, b], ' ');
  }

  /**
   * Reading the text back yields the outer ring's vertices as (lng, lat)
   * in order, with the first vertex repeated at the end: n vertices give
   * n + 1 pairs, even when the ring was already closed.
   */
  lemma WktRoundTrip(layer: Layer, fmt: real -> string)
    requires PlainNumbers(fmt)
    requires LayerToWkt(layer, fmt).Some?
    ensures |OuterRing(layer.latLngs.value)| > 0
    ensures ReadPolygon(LayerToWkt(layer, fmt).value) == Some(ClosedPairs(OuterRing(layer.latLngs.value), fmt))
  {
    var ring := OuterRing(layer.latLngs.value);
    var coords := ClosedCoords(ring, fmt);
    var body := Text.Join(coords, ',');
    assert LayerToWkt(layer, fmt).value == WktPrefix + body + WktSuffix;
    ReadFramed(body);
    ReadClosedCoords(ring, fmt);
  }

  lemma ReadClosedCoords(ring: seq<LatLng>, fmt: real -> string)
    requires PlainNumbers(fmt)
    requires |ring| > 0
    ensures ReadCoords(Text.Split(Text.Join(ClosedCoords(ring, fmt), ','), ',')) == Some(ClosedPairs(ring, fmt))
  {
    var coords := ClosedCoords(ring, fmt);
    ClosedCoordsHaveNoComma(ring, fmt);
    Text.SplitJoin(coords, ',');
    ReadEachCoord(ring, fmt);
  }

  lemma ClosedCoordsHaveNoComma(ring: seq<LatLng>, fmt: real -> string)
    requires PlainNumbers(fmt)
    requires |ring| > 0
    ensures var coords := ClosedCoords(ring, fmt); forall i :: 0 <= i < |coords| ==> ',' !in coords[i]
  {
    var coords := ClosedCoords(ring, fmt);
    forall i | 0 <= i < |coords| ensures ',' !in coords[i] {
      var ll := if i < |ring| then ring[i] else ring[0];
      assert coords[i] == fmt(ll.lng) + " " + fmt(ll.lat);
      assert ',' !in fmt(ll.lng) && ',' !in fmt(ll.lat);
    }
  }

  lemma ReadEachCoord(ring: seq<LatLng>, fmt: real -> string)
    requires PlainNumbers(fmt)
    requires |ring| > 0
    ensures ReadCoords(ClosedCoords(ring, fmt)) == Some(ClosedPairs(ring, fmt))
  {
    var coords := ClosedCoords(ring, fmt);
    var pairs := ClosedPairs(ring, fmt);
    forall i | 0 <= i < |coords| ensures ReadPair(coords[i]) == Some(pairs[i]) {
      var ll := if i < |ring| then ring[i] else ring[0];
      assert coords[i] == CoordText(ll, fmt);
      ReadCoordText(ll, fmt);
    }
    var read := seq(|coords|, i requires 0 <= i < |coords| => ReadPair(coords[i]).value);
    assert read == pairs;
  }

  /** A nested array writes only its first ring. */
  lemma NestedUsesOuterRing(outer: seq<LatLng>, holes: seq<seq<LatLng>>, fmt: real -> string)
    ensures LayerToWkt(Layer(Some(Rings([outer] + holes))), fmt) == LayerToWkt(Layer(Some(Ring(outer))), fmt)
  {
  }

  // ---------------------------------------------------------------------
  // Heat layer points

  /** A point the heat layer accepts: truthy coordinates that convert to numbers. */
  predicate ValidHeatDatum(p: JsObject, parseNumber: string -> JsNum)
  {
    && Truthy(Get(p, "latitude")) && Truthy(Get(p, "longitude"))
    && !ValueIsNaN(Get(p, "latitude"), parseNumber) && !ValueIsNaN(Get(p, "longitude"), parseNumber)
  }

  datatype HeatPoint = HeatPoint(lat: JsNum, lng: JsNum, intensity: JsNum)

  /** `[Number(lat), Number(lng), Number(intensity || 1.0)]`. */
  function ToHeatPoint(p: JsObject, parseNumber: string -> JsNum): HeatPoint
  {
    HeatPoint(ToNumber(Get(p, "latitude"), parseNumber), ToNumber(Get(p, "longitude"), parseNumber),
              ToNumber(Or(Get(p, "intensity"), Num(Finite(1.0))), parseNumber))
  }

  /** `ValidHeatDatum` as the test handed to `filter`. */
  function ValidHeatData(parseNumber: string -> JsNum): JsObject -> bool
  {
    p => ValidHeatDatum(p, parseNumber)
  }

  /** The `map` step: one point per datum, in order. */
  function HeatPoints(kept: seq<JsObject>, parseNumber: string -> JsNum): (points: seq<HeatPoint>)
    ensures |points| == |kept|
    ensures forall i :: 0 <= i < |kept| ==> points[i] == ToHeatPoint(kept[i], parseNumber)
    ensures forall h :: h in points ==> exists p :: p in kept && h == ToHeatPoint(p, parseNumber)
    ensures forall p :: p in kept ==> ToHeatPoint(p, parseNumber) in points
  {
    var points := seq(|kept|, i requires 0 <= i < |kept| => ToHeatPoint(kept[i], parseNumber));
    assert forall h :: h in points ==> exists p :: p in kept && h == ToHeatPoint(p, parseNumber) by {
      forall h | h in points ensures exists p :: p in kept && h == ToHeatPoint(p, parseNumber) {
        var i :| 0 <= i < |points| && points[i] == h;
        assert kept[i] in kept;
      }
    }
    assert forall p :: p in kept ==> ToHeatPoint(p, parseNumber) in points by {
      forall p | p in kept ensures ToHeatPoint(p, parseNumber) in points {
        var i :| 0 <= i < |kept| && kept[i] == p;
        assert points[i] == ToHeatPoint(p, parseNumber);
      }
    }
    points
  }

  /** The datum a valid point is built from converts its coordinates to numbers. */
  lemma ValidDatumHasNumbers(p: JsObject, parseNumber: string -> JsNum)
    requires ValidHeatDatum(p, parseNumber)
    ensures !IsNaN(ToHeatPoint(p, parseNumber).lat) && !IsNaN(ToHeatPoint(p, parseNumber).lng)
  {
  }

  /**
   * The points handed to `L.heatLayer`, or None when no layer is added: one
   * point per valid datum, in order, and only those.
   */
  function HeatLayerPoints(data: seq<JsObject>, parseNumber: string -> JsNum): (r: Option<seq<HeatPoint>>)
    ensures r.None? <==> forall p :: p in data ==> !ValidHeatDatum(p, parseNumber)
    ensures r.Some? ==> forall h :: h in r.value ==> exists p :: p in data && ValidHeatDatum(p, parseNumber) && h == ToHeatPoint(p, parseNumber)
    ensures forall p :: p in data && ValidHeatDatum(p, parseNumber) ==> r.Some? && ToHeatPoint(p, parseNumber) in r.value
    ensures r.Some? ==>
      var kept := Seqs.Filter(data, ValidHeatData(parseNumber));
      && |r.value| == |kept|
      && forall i :: 0 <= i < |kept| ==> r.value[i] == ToHeatPoint(kept[i], parseNumber)
    ensures r.Some? ==> forall h :: h in r.value ==> !IsNaN(h.lat) && !IsNaN(h.lng)
  {
    var kept := Seqs.Filter(data, ValidHeatData(parseNumber));
    assert forall p :: p in kept <==> p in data && ValidHeatDatum(p, parseNumber) by {
      forall p ensures p in kept <==> p in data && ValidHeatDatum(p, parseNumber) {
        Seqs.FilterMembership(data, ValidHeatData(parseNumber), p);
      }
    }
    if |kept| == 0 then None
    else
      assert kept[0] in kept;
      var points := HeatPoints(kept, parseNumber);
      assert forall h :: h in points ==> !IsNaN(h.lat) && !IsNaN(h.lng) by {
        forall h | h in points ensures !IsNaN(h.lat) && !IsNaN(h.lng) {
          var p :| p in kept && h == ToHeatPoint(p, parseNumber);
          ValidDatumHasNumbers(p, parseNumber);
        }
      }
      Some(points)
  }

  /** A falsy intensity (missing, 0 or NaN) is drawn as 1.0; a truthy number is kept. */
  lemma HeatIntensityDefault(p: JsObject, parseNumber: string -> JsNum)
    ensures !Truthy(Get(p, "intensity")) ==> ToHeatPoint(p, parseNumber).intensity == Finite(1.0)
    ensures Get(p, "intensity").Num? && NumTruthy(Get(p, "intensity").n) ==>
      ToHeatPoint(p, parseNumber).intensity == Get(p, "intensity").n
  {
  }
}
