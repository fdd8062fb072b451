/**
 The parser of fusion-fence requests.  The functions say what a script value stands for; the methods
 are the parser's loops.
 */
module FusionFence {
  import opened Integers
  import opened Javascript
  import opened Wrappers

  // ---------- points and polygons ----------

  datatype Point = Point(latitude: real, longitude: real)

  function PointOf(o: Js): Option<Point> {
    match (NumberOf(o, "latitude"), NumberOf(o, "longitude"))
    case (Some(latitude), Some(longitude)) =>
      if -90.0 <= latitude <= 90.0 && -180.0 <= longitude <= 180.0 then Some(Point(latitude, longitude)) else None
    case _ => None
  }

  const MAX_POLYGON_POINTS := 10
  const MIN_POLYGON_POINTS := 3

  /** Every point once, where it occurs first. */
  function Distinct(points: seq<Point>): seq<Point> {
    if points == [] then []
    else
      var n := |points| - 1;
      var before := Distinct(points[..n]);
      if points[n] in before then before else before + [points[n]]
  }

  function PolygonOf(o: Js): Option<seq<Point>> {
    if !o.Arr? then None
    else
      var points := Distinct(Collect(First(o.elements, MAX_POLYGON_POINTS), PointOf));
      if |points| >= MIN_POLYGON_POINTS then Some(points) else None
  }

  predicate NoDuplicates(points: seq<Point>) {
    forall i, j :: 0 <= i < j < |points| ==> points[i] != points[j]
  }

  function FirstIndex(points: seq<Point>, p: Point): (i: nat)
    requires p in points
    ensures i < |points| && points[i] == p && p !in points[..i]
  {
    if points[0] == p then 0
    else
      assert p in points[1..];
      var i := 1 + FirstIndex(points[1..], p);
      assert points[..i] == [points[0]] + points[1..][..i - 1];
      i
  }

  lemma {:induction false} DistinctKeepsThePoints(points: seq<Point>)
    ensures NoDuplicates(Distinct(points)) && |Distinct(points)| <= |points|
    ensures forall p :: p in Distinct(points) <==> p in points
  {
    if points == [] {
    } else {
      var n := |points| - 1;
      DistinctKeepsThePoints(points[..n]);
      assert points == points[..n] + [points[n]];
    }
  }

  lemma {:induction false} FirstIndexIs(points: seq<Point>, p: Point, i: nat)
    requires i < |points| && points[i] == p && p !in points[..i]
    ensures FirstIndex(points, p) == i
  {
    if i == 0 {
    } else {
      assert points[..i][0] == points[0];
      assert points[..i] == [points[0]] + points[1..][..i - 1];
      FirstIndexIs(points[1..], p, i - 1);
    }
  }

  lemma FirstIndexOfPrefix(points: seq<Point>, n: nat, p: Point)
    requires n <= |points| && p in points[..n]
    ensures p in points && FirstIndex(points, p) == FirstIndex(points[..n], p)
  {
    var j := FirstIndex(points[..n], p);
    assert points[..n][..j] == points[..j];
    FirstIndexIs(points, p, j);
  }

  /** The points come in the order of their first occurrences. */
  lemma {:induction false} DistinctKeepsTheOrder(points: seq<Point>, i: nat, j: nat)
    requires i < j < |Distinct(points)|
    ensures Distinct(points)[i] in points && Distinct(points)[j] in points
    ensures FirstIndex(points, Distinct(points)[i]) < FirstIndex(points, Distinct(points)[j])
  {
    var n := |points| - 1;
    var before := Distinct(points[..n]);
    DistinctKeepsThePoints(points[..n]);
    DistinctKeepsThePoints(points);
    FirstIndexOfPrefix(points, n, before[i]);
    if j < |before| {
      DistinctKeepsTheOrder(points[..n], i, j);
      FirstIndexOfPrefix(points, n, before[j]);
    } else {
      FirstIndexIs(points, points[n], n);
    }
  }

  lemma {:induction false} DistinctOfDistinct(points: seq<Point>)
    requires NoDuplicates(points)
    ensures Distinct(points) == points
  {
    if points == [] {
    } else {
      var n := |points| - 1;
      DistinctOfDistinct(points[..n]);
      assert points == points[..n] + [points[n]];
    }
  }

  /** The points among the first ten elements. */
  ghost function PointSet(elements: seq<Js>): set<Point> {
    set i | 0 <= i < |First(elements, MAX_POLYGON_POINTS)| && PointOf(elements[i]).Some? :: PointOf(elements[i]).value
  }

  lemma {:induction false} SizeOfDistinct(points: seq<Point>)
    requires NoDuplicates(points)
    ensures |set p | p in points| == |points|
  {
    if points == [] {
    } else {
      var n := |points| - 1;
      SizeOfDistinct(points[..n]);
      assert (set p | p in points) == (set p | p in points[..n]) + {points[n]};
    }
  }

  /** A polygon is accepted exactly when it is an array with three different valid points among its first
      ten elements; what is returned are these points, each once, in the order of their first occurrences. */
  lemma PolygonAcceptedExactly(o: Js)
    ensures PolygonOf(o).Some? <==> o.Arr? && |PointSet(o.elements)| >= MIN_POLYGON_POINTS
    ensures PolygonOf(o).Some? ==>
      var polygon := PolygonOf(o).value;
      NoDuplicates(polygon) && |polygon| <= MAX_POLYGON_POINTS && (set p | p in polygon) == PointSet(o.elements)
  {
    if o.Arr? {
      var elements := First(o.elements, MAX_POLYGON_POINTS);
      var points := Collect(elements, PointOf);
      var polygon := Distinct(points);
      DistinctKeepsThePoints(points);
      SizeOfDistinct(polygon);
      CollectIsInOrder(elements, PointOf);
      forall p
        ensures p in points <==> p in PointSet(o.elements)
      {
        if p in points {
          var i :| 0 <= i < |points| && points[i] == p;
          assert o.elements[Taken(elements, PointOf)[i]] == elements[Taken(elements, PointOf)[i]];
        }
        if p in PointSet(o.elements) {
          var k :| 0 <= k < |elements| && PointOf(o.elements[k]).Some? && PointOf(o.elements[k]).value == p;
          assert elements[k] == o.elements[k];
          CollectTakesAll(elements, PointOf, k);
          var i :| 0 <= i < |points| && Taken(elements, PointOf)[i] == k;
          assert points[i] == p;
        }
      }
      assert (set p | p in polygon) == PointSet(o.elements);
      TakenIsShort(elements, PointOf);
    }
  }

  lemma {:induction false} TakenIsShort<T>(elements: seq<Js>, parse: Js -> Option<T>)
    ensures |Collect(elements, parse)| <= |elements|
  {
    if elements == [] {
    } else {
      TakenIsShort(elements[..|elements| - 1], parse);
    }
  }

  lemma ShortArrayIsNoPolygon(o: Js)
    requires o.Arr? && |o.elements| < MIN_POLYGON_POINTS
    ensures PolygonOf(o).None?
  {
    hide PointOf;
    TakenIsShort(o.elements, PointOf);
    DistinctKeepsThePoints(Collect(o.elements, PointOf));
  }

  method ParsePolygonPoints(o: Js) returns (polygon: Option<seq<Point>>)
    ensures polygon == PolygonOf(o)
  {
    hide PointOf, NoDuplicates;
    if !o.Arr? {
      return None;
    }
    var arrayLen := |o.elements|;
    if arrayLen > MAX_POLYGON_POINTS {
      arrayLen := MAX_POLYGON_POINTS;
    }
    var elements := o.elements[..arrayLen];
    assert elements == First(o.elements, MAX_POLYGON_POINTS);
    if arrayLen < MIN_POLYGON_POINTS {
      ShortArrayIsNoPolygon(o);
      return None;
    }
    var points: seq<Point> := [];
    for i := 0 to arrayLen
      invariant points == Distinct(Collect(elements[..i], PointOf))
    {
      assert elements[..i + 1] == elements[..i] + [elements[i]];
      assert elements[..i + 1][..i] == elements[..i];
      var point := PointOf(elements[i]);
      if point.Some? {
        var found := FindPoint(points, point.value);
        if !found {
          points := points + [point.value];
        }
      }
    }
    assert elements[..arrayLen] == elements;
    if |points| < MIN_POLYGON_POINTS {
      return None;
    }
    return Some(points);
  }

  method FindPoint(points: seq<Point>, p: Point) returns (found: bool)
    ensures found <==> p in points
  {
    var i := 0;
    while i < |points| && points[i] != p
      invariant 0 <= i <= |points| && p !in points[..i]
    {
      i := i + 1;
    }
    return i != |points|;
  }

  // ---------- GNSS fences ----------

  datatype GnssFence =
    | PolygonFence(points: seq<Point>)
    | CircularFence(latitude: real, longitude: real, radius: real, expiration: real)

  const GNSS_FENCE_POLYGON := 1
  const GNSS_FENCE_CIRCULAR := 2

  /** The circle is not checked against the ranges of coordinates. */
  function CircleOf(o: Js): Option<GnssFence> {
    var latitude, longitude := NumberOf(o, "latitude"), NumberOf(o, "longitude");
    var radius, expiration := NumberOf(o, "radius"), NumberOf(o, "expiration");
    if latitude.None? || longitude.None? || radius.None? || expiration.None? || expiration.value <= 0.0 then None
    else Some(CircularFence(latitude.value, longitude.value, radius.value, expiration.value))
  }

  function GnssOf(o: Js): Option<GnssFence> {
    match (IntOf(o, "gnssFenceType"), Property(o, "polygon"), Property(o, "circularFence"))
    case (Some(kind), Some(polygon), Some(circle)) =>
      if kind == GNSS_FENCE_CIRCULAR then CircleOf(circle)
      else if kind == GNSS_FENCE_POLYGON then
        (match PolygonOf(polygon)
         case Some(points) => Some(PolygonFence(points))
         case None => None)
      else None
    case _ => None
  }

  method ParseGnssFence(o: Js) returns (fence: Option<GnssFence>)
    ensures fence == GnssOf(o)
  {
    var kind := IntOf(o, "gnssFenceType");
    if kind.None? {
      return None;
    }
    if kind.value != GNSS_FENCE_POLYGON && kind.value != GNSS_FENCE_CIRCULAR {
      return None;
    }
    if kind.value == GNSS_FENCE_CIRCULAR {
      return CircleOf(Property(o, "circularFence").value);
    }
    var points := ParsePolygonPoints(Property(o, "polygon").value);
    if points.None? {
      return None;
    }
    return Some(PolygonFence(points.value));
  }

  // ---------- cell fences ----------

  /** Where the cell was seen; `tac` is left unset when the script does not give it. */
  datatype CellPlace = CellPlace(lac: int, mcc: int, mnc: int, pci: int, tac: Option<int>)

  datatype CellSignal = CellSignal(rat: int, signalIntensity: int, arfcn: int)

  datatype CellInfo = CellInfo(timeSinceBoot: int, cellId: int, place: CellPlace, signal: CellSignal)

  function PlaceOf(o: Js): Option<CellPlace> {
    var lac, mcc, mnc, pci := IntOf(o, "lac"), IntOf(o, "mcc"), IntOf(o, "mnc"), IntOf(o, "pci");
    if lac.None? || mcc.None? || mnc.None? || pci.None? then None
    else Some(CellPlace(lac.value, mcc.value, mnc.value, pci.value, IntOf(o, "tac")))
  }

  function SignalOf(o: Js): Option<CellSignal> {
    var rat, signalIntensity, arfcn := IntOf(o, "rat"), IntOf(o, "signalIntensity"), IntOf(o, "arfcn");
    if rat.None? || signalIntensity.None? || arfcn.None? then None
    else Some(CellSignal(rat.value, signalIntensity.value, arfcn.value))
  }

  function CellInfoOf(o: Js): Option<CellInfo> {
    match (Int64Of(o, "timeSinceBoot"), Int64Of(o, "cellId"), PlaceOf(o), SignalOf(o))
    case (Some(timeSinceBoot), Some(cellId), Some(place), Some(signal)) =>
      Some(CellInfo(timeSinceBoot, cellId, place, signal))
    case _ => None
  }

  const MAX_CELL_INFOS := 1000

  function CellInfosOf(o: Js): Option<seq<CellInfo>> {
    if !o.Arr? then None
    else
      var cellInfos := Collect(First(o.elements, MAX_CELL_INFOS), CellInfoOf);
      if cellInfos == [] then None else Some(cellInfos)
  }

  /** When the property cannot be read at all, the fence is kept, without cells. */
  function CellFenceOf(o: Js): Option<seq<CellInfo>> {
    match Property(o, "cellInfos")
    case Some(list) => CellInfosOf(list)
    case None => Some([])
  }

  method ParseCellInfos(o: Js) returns (cellInfos: Option<seq<CellInfo>>)
    ensures cellInfos == CellInfosOf(o)
  {
    hide CellInfoOf;
    if !o.Arr? {
      return None;
    }
    var arrayLen := |o.elements|;
    if arrayLen > MAX_CELL_INFOS {
      arrayLen := MAX_CELL_INFOS;
    }
    var elements := o.elements[..arrayLen];
    assert elements == First(o.elements, MAX_CELL_INFOS);
    var values: seq<CellInfo> := [];
    for i := 0 to arrayLen
      invariant values == Collect(elements[..i], CellInfoOf)
    {
      assert elements[..i + 1][..i] == elements[..i];
      var cellInfo := CellInfoOf(elements[i]);
      if cellInfo.Some? {
        values := values + [cellInfo.value];
      }
    }
    assert elements[..arrayLen] == elements;
    if values == [] {
      return None;
    }
    return Some(values);
  }

  method ParseCellFence(o: Js) returns (fence: Option<seq<CellInfo>>)
    ensures fence == CellFenceOf(o)
  {
    var cellInfosArray := Property(o, "cellInfos");
    if cellInfosArray.Some? {
      fence := ParseCellInfos(cellInfosArray.value);
    } else {
      fence := Some([]);
    }
  }

  // ---------- wifi fences ----------

  datatype WifiFeature = WifiFeature(rssiAvg: int, rssiStandardDeviation: real, mac: seq<string>)

  datatype WifiFence = WifiFence(kind: int, features: seq<WifiFeature>)

  const WIFI_FINGERPRINT_SEMANTIC := 1
  const WIFI_FINGERPRINT_LOCATION := 2
  const MAX_WIFI_FEATURES := 150

  predicate IsHexDigit(c: char) {
    '0' <= c <= '9' || 'A' <= c <= 'F' || 'a' <= c <= 'f'
  }

  /** Six pairs of hexadecimal digits with colons between them. */
  predicate IsMac(s: string) {
    |s| == 17 && forall i :: 0 <= i < 17 ==> if i % 3 == 2 then s[i] == ':' else IsHexDigit(s[i])
  }

  function MacOf(o: Js): Option<string> {
    if o.Str? && IsMac(o.s) then Some(o.s) else None
  }

  function MacsOf(o: Js): Option<seq<string>> {
    if o.Arr? && o.elements != [] then All(o.elements, MacOf) else None
  }

  function FeatureOf(o: Js): Option<WifiFeature> {
    match (IntOf(o, "rssiAvg"), NumberOf(o, "rssiStandardDeviation"), Property(o, "mac"))
    case (Some(rssiAvg), Some(deviation), Some(list)) =>
      (match MacsOf(list)
       case Some(mac) => Some(WifiFeature(rssiAvg, deviation, mac))
       case None => None)
    case _ => None
  }

  function FeaturesOf(o: Js): Option<seq<WifiFeature>> {
    if o.Arr? && o.elements != [] then All(First(o.elements, MAX_WIFI_FEATURES), FeatureOf) else None
  }

  function WifiFenceOf(o: Js): Option<WifiFence> {
    match (IntOf(o, "type"), Property(o, "wifiFeatures"))
    case (Some(kind), Some(list)) =>
      if kind != WIFI_FINGERPRINT_SEMANTIC && kind != WIFI_FINGERPRINT_LOCATION then None
      else
        (match FeaturesOf(list)
         case Some(features) => Some(WifiFence(kind, features))
         case None => None)
    case _ => None
  }

  method ParseWifiMacAddresses(o: Js) returns (macs: Option<seq<string>>)
    ensures macs == match Property(o, "mac") case Some(list) => MacsOf(list) case None => None
  {
    var macArray := Property(o, "mac");
    if macArray.None? || !macArray.value.Arr? {
      return None;
    }
    var elements := macArray.value.elements;
    if |elements| == 0 {
      return None;
    }
    var values: seq<string> := [];
    for j := 0 to |elements|
      invariant |values| == j
      invariant forall i :: 0 <= i < j ==> MacOf(elements[i]) == Some(values[i])
    {
      if !elements[j].Str? || !IsMac(elements[j].s) {
        assert MacOf(elements[j]).None?;
        return None;
      }
      values := values + [elements[j].s];
    }
    AllParse(elements, MacOf, values);
    return Some(values);
  }

  method ParseWifiFeatures(o: Js) returns (features: Option<seq<WifiFeature>>)
    ensures features == FeaturesOf(o)
  {
    if !o.Arr? || |o.elements| == 0 {
      return None;
    }
    var arrayLen := |o.elements|;
    if arrayLen > MAX_WIFI_FEATURES {
      arrayLen := MAX_WIFI_FEATURES;
    }
    var elements := First(o.elements, MAX_WIFI_FEATURES);
    var values: seq<WifiFeature> := [];
    for i := 0 to arrayLen
      invariant |values| == i
      invariant forall k :: 0 <= k < i ==> FeatureOf(elements[k]) == Some(values[k])
    {
      var rssiAvg := IntOf(elements[i], "rssiAvg");
      var deviation := NumberOf(elements[i], "rssiStandardDeviation");
      var mac := ParseWifiMacAddresses(elements[i]);
      if rssiAvg.None? || deviation.None? || mac.None? {
        assert FeatureOf(elements[i]).None?;
        return None;
      }
      values := values + [WifiFeature(rssiAvg.value, deviation.value, mac.value)];
    }
    AllParse(elements, FeatureOf, values);
    return Some(values);
  }

  method ParseWifiFence(o: Js) returns (fence: Option<WifiFence>)
    ensures fence == WifiFenceOf(o)
  {
    var kind := IntOf(o, "type");
    if kind.None? {
      return None;
    }
    if kind.value != WIFI_FINGERPRINT_SEMANTIC && kind.value != WIFI_FINGERPRINT_LOCATION {
      return None;
    }
    var features := ParseWifiFeatures(Property(o, "wifiFeatures").value);
    if features.None? {
      return None;
    }
    return Some(WifiFence(kind.value, features.value));
  }

  // ---------- transition events ----------

  datatype Event = Enter | Exit | Dwell | Approaching | Leaving | NearWander

  /** The bit of an event in a script's request, and the bit the sensor service uses for it. */
  function JsBit(e: Event): nat {
    match e
    case Enter => 1
    case Exit => 2
    case Dwell => 4
    case Approaching => 8
    case Leaving => 16
    case NearWander => 32
  }

  function NativeBit(e: Event): nat {
    match e
    case Enter => 1
    case Exit => 2
    case Dwell => 8
    case Approaching => 64
    case Leaving => 256
    case NearWander => 128
  }

  /** `x & bit` is not zero, where `bit` is a power of two below 2^31 and a negative x is in two's complement. */
  predicate HasBit(x: int, bit: nat)
    requires bit > 0
  {
    (x / bit) % 2 == 1
  }

  /** `x | bit`, where `bit` is a power of two. */
  function WithBit(x: nat, bit: nat): nat
    requires bit > 0
  {
    if HasBit(x, bit) then x else x + bit
  }

  /** The bit of `x` at `bit` is what stands between the part below and the part above. */
  lemma BitOf(x: nat, bit: nat, above: nat, b: nat, below: nat)
    requires b < 2 && below < bit && x == (2 * above + b) * bit + below
    ensures HasBit(x, bit) <==> b == 1
  {
    QuotientIs(x, bit, 2 * above + b, below);
  }

  lemma QuotientIs(x: nat, d: nat, q: nat, r: nat)
    requires r < d && x == q * d + r
    ensures x / d == q
  {
    var q' := x / d;
    assert x == q' * d + x % d;
    ProductsGrow(q' + 1, q, d);
    ProductsGrow(q + 1, q', d);
    assert (q' + 1) * d == q' * d + d && (q + 1) * d == q * d + d;
  }

  lemma ProductsGrow(a: nat, b: nat, d: nat)
    ensures a <= b ==> a * d <= b * d
  {
  }

  function Bit(x: int, bit: nat): (b: nat)
    requires bit > 0
    ensures b < 2
  {
    if HasBit(x, bit) then 1 else 0
  }

  const JS_EVENTS := 64

  function NativeEvents(js: int): nat {
    Bit(js, 1) + 2 * Bit(js, 2) + 8 * Bit(js, 4) + 64 * Bit(js, 8) + 128 * Bit(js, 32) + 256 * Bit(js, 16)
  }

  function JsEvents(native: nat): nat {
    Bit(native, 1) + 2 * Bit(native, 2) + 4 * Bit(native, 8) + 8 * Bit(native, 64) + 16 * Bit(native, 256)
    + 32 * Bit(native, 128)
  }

  /** The low six bits of a mask are the sum of its bits. */
  lemma SumOfBits(js: int)
    ensures js % JS_EVENTS ==
      Bit(js, 1) + 2 * Bit(js, 2) + 4 * Bit(js, 4) + 8 * Bit(js, 8) + 16 * Bit(js, 16) + 32 * Bit(js, 32)
  {
    var q1, q2, q3, q4, q5, q6 := js / 2, js / 4, js / 8, js / 16, js / 32, js / 64;
    assert q2 == q1 / 2 && q3 == q2 / 2 && q4 == q3 / 2 && q5 == q4 / 2 && q6 == q5 / 2;
    assert Bit(js, 1) == js % 2 && Bit(js, 2) == q1 % 2 && Bit(js, 4) == q2 % 2;
    assert Bit(js, 8) == q3 % 2 && Bit(js, 16) == q4 % 2 && Bit(js, 32) == q5 % 2;
  }

  lemma NativeBits(b0: nat, b1: nat, b3: nat, b6: nat, b7: nat, b8: nat)
    requires b0 < 2 && b1 < 2 && b3 < 2 && b6 < 2 && b7 < 2 && b8 < 2
    ensures
      var n := b0 + 2 * b1 + 8 * b3 + 64 * b6 + 128 * b7 + 256 * b8;
      && (HasBit(n, 1) <==> b0 == 1) && (HasBit(n, 2) <==> b1 == 1) && (HasBit(n, 8) <==> b3 == 1)
      && (HasBit(n, 64) <==> b6 == 1) && (HasBit(n, 128) <==> b7 == 1) && (HasBit(n, 256) <==> b8 == 1)
      && !HasBit(n, 4) && !HasBit(n, 16) && !HasBit(n, 32) && n < 512
  {
    hide HasBit;
    var n := b0 + 2 * b1 + 8 * b3 + 64 * b6 + 128 * b7 + 256 * b8;
    BitOf(n, 1, b1 + 4 * b3 + 32 * b6 + 64 * b7 + 128 * b8, b0, 0);
    BitOf(n, 2, 2 * b3 + 16 * b6 + 32 * b7 + 64 * b8, b1, b0);
    BitOf(n, 4, b3 + 8 * b6 + 16 * b7 + 32 * b8, 0, b0 + 2 * b1);
    BitOf(n, 16, 2 * b6 + 4 * b7 + 8 * b8, 0, b0 + 2 * b1 + 8 * b3);
    BitOf(n, 32, b6 + 2 * b7 + 4 * b8, 0, b0 + 2 * b1 + 8 * b3);
    BitOf(n, 8, 4 * b6 + 8 * b7 + 16 * b8, b3, b0 + 2 * b1);
    BitOf(n, 64, b7 + 2 * b8, b6, b0 + 2 * b1 + 8 * b3);
    BitOf(n, 128, b8, b7, b0 + 2 * b1 + 8 * b3 + 64 * b6);
    BitOf(n, 256, 0, b8, b0 + 2 * b1 + 8 * b3 + 64 * b6 + 128 * b7);
  }

  method ConvertJsTransitionEventsToNative(js: int) returns (native: nat)
    ensures native == NativeEvents(js)
  {
    hide HasBit;
    native := 0;
    var b0, b1, b3 := Bit(js, JsBit(Enter)), Bit(js, JsBit(Exit)), Bit(js, JsBit(Dwell));
    var b6, b8 := Bit(js, JsBit(Approaching)), Bit(js, JsBit(Leaving));
    NativeBits(0, 0, 0, 0, 0, 0);
    if HasBit(js, JsBit(Enter)) {
      native := WithBit(native, NativeBit(Enter));
    }
    NativeBits(b0, 0, 0, 0, 0, 0);
    if HasBit(js, JsBit(Exit)) {
      native := WithBit(native, NativeBit(Exit));
    }
    NativeBits(b0, b1, 0, 0, 0, 0);
    if HasBit(js, JsBit(Dwell)) {
      native := WithBit(native, NativeBit(Dwell));
    }
    NativeBits(b0, b1, b3, 0, 0, 0);
    if HasBit(js, JsBit(Approaching)) {
      native := WithBit(native, NativeBit(Approaching));
    }
    NativeBits(b0, b1, b3, b6, 0, 0);
    if HasBit(js, JsBit(Leaving)) {
      native := WithBit(native, NativeBit(Leaving));
    }
    NativeBits(b0, b1, b3, b6, 0, b8);
    if HasBit(js, JsBit(NearWander)) {
      native := WithBit(native, NativeBit(NearWander));
    }
  }

  /** The native mask asks for exactly the events of the script's mask, and for nothing else: the low six
      bits can be turned back. */
  lemma NativeMaskIsExact(js: int)
    ensures forall e: Event :: HasBit(NativeEvents(js), NativeBit(e)) <==> HasBit(js, JsBit(e))
    ensures
      var native := NativeEvents(js);
      native < 512 && !HasBit(native, 4) && !HasBit(native, 16) && !HasBit(native, 32)
    ensures JsEvents(NativeEvents(js)) == js % JS_EVENTS
  {
    hide HasBit;
    NativeBits(Bit(js, 1), Bit(js, 2), Bit(js, 4), Bit(js, 8), Bit(js, 32), Bit(js, 16));
    SumOfBits(js);
  }

  // ---------- the request ----------

  datatype Timing = Timing(events: nat, loiterTimeMs: int, expirationMs: int)

  datatype Fences = Fences(gnss: seq<GnssFence>, cell: seq<seq<CellInfo>>, wifi: seq<WifiFence>)

  /** `timing.events` is the native mask. */
  datatype Request = Request(
    identifier: string,
    poiType: string,
    scene: int,
    fenceType: nat,
    timing: Timing,
    poiLocation: Point,
    fences: Fences)

  const MAX_FENCES := 30

  const FUSION_FENCE_GNSS := 1
  const FUSION_FENCE_CELLULAR := 2
  const FUSION_FENCE_WIFI := 4
  const FENCE_TYPES := 16

  /** At least one of the first thirty elements is a fence. */
  predicate HasFence<T>(list: Option<Js>, parse: Js -> Option<T>) {
    list.Some? && list.value.Arr?
    && exists i :: 0 <= i < |First(list.value.elements, MAX_FENCES)| && parse(list.value.elements[i]).Some?
  }

  /** The fences among the first thirty elements. */
  function FencesIn<T>(list: Js, parse: Js -> Option<T>): seq<T>
    requires list.Arr?
  {
    Collect(First(list.elements, MAX_FENCES), parse)
  }

  predicate AcceptsTiming(o: Js) {
    var events, loiterTimeMs := IntOf(o, "monitorTransitionEvents"), Int64Of(o, "loiterTimeMs");
    var expirationMs := Int64Of(o, "expirationMs");
    && events.Some? && 0 < events.value < JS_EVENTS
    && loiterTimeMs.Some? && loiterTimeMs.value >= 0
    && expirationMs.Some? && expirationMs.value > 0
  }

  /** The objects that are fusion-fence requests. */
  predicate Accepts(o: Js) {
    var identifier, scene, fenceType := TextOf(o, "identifier"), IntOf(o, "scene"), IntOf(o, "fenceType");
    && identifier.Some? && identifier.value != ""
    && scene.Some? && 1 <= scene.value <= 4
    && fenceType.Some? && 0 < fenceType.value < FENCE_TYPES
    && AcceptsTiming(o)
    && Property(o, "poiLocation").Some? && PointOf(Property(o, "poiLocation").value).Some?
    && (HasBit(fenceType.value, FUSION_FENCE_GNSS) ==> HasFence(Property(o, "gnssFences"), GnssOf))
    && (HasBit(fenceType.value, FUSION_FENCE_CELLULAR) ==> HasFence(Property(o, "cellFences"), CellFenceOf))
    && (HasBit(fenceType.value, FUSION_FENCE_WIFI) ==> HasFence(Property(o, "wifiFences"), WifiFenceOf))
  }

  function TimingOf(o: Js): Timing
    requires AcceptsTiming(o)
  {
    Timing(NativeEvents(IntOf(o, "monitorTransitionEvents").value), Int64Of(o, "loiterTimeMs").value,
           Int64Of(o, "expirationMs").value)
  }

  function FencesOf(o: Js): Fences
    requires Accepts(o)
  {
    var fenceType := IntOf(o, "fenceType").value;
    Fences(
      if HasBit(fenceType, FUSION_FENCE_GNSS) then FencesIn(Property(o, "gnssFences").value, GnssOf) else [],
      if HasBit(fenceType, FUSION_FENCE_CELLULAR) then FencesIn(Property(o, "cellFences").value, CellFenceOf) else [],
      if HasBit(fenceType, FUSION_FENCE_WIFI) then FencesIn(Property(o, "wifiFences").value, WifiFenceOf) else [])
  }

  /** What an accepted object stands for. */
  function NormalForm(o: Js): Request
    requires Accepts(o)
  {
    var poiType := TextOf(o, "poiType");
    Request(
      TextOf(o, "identifier").value,
      if poiType.Some? then poiType.value else "",
      IntOf(o, "scene").value,
      IntOf(o, "fenceType").value,
      TimingOf(o),
      PointOf(Property(o, "poiLocation").value).value,
      FencesOf(o))
  }

  lemma CollectFindsExactly<T>(elements: seq<Js>, parse: Js -> Option<T>)
    ensures Collect(elements, parse) != [] <==> exists i :: 0 <= i < |elements| && parse(elements[i]).Some?
  {
    CollectIsInOrder(elements, parse);
    if Collect(elements, parse) != [] {
      assert parse(elements[Taken(elements, parse)[0]]).Some?;
    }
    if i :| 0 <= i < |elements| && parse(elements[i]).Some? {
      CollectTakesAll(elements, parse, i);
    }
  }

  lemma HasFenceExactly<T>(list: Option<Js>, parse: Js -> Option<T>)
    ensures HasFence(list, parse) <==> list.Some? && list.value.Arr? && FencesIn(list.value, parse) != []
  {
    if list.Some? && list.value.Arr? {
      var elements := First(list.value.elements, MAX_FENCES);
      CollectFindsExactly(elements, parse);
      assert forall i :: 0 <= i < |elements| ==> elements[i] == list.value.elements[i];
    }
  }

  method ParseGnssFences(o: Js) returns (fences: Option<seq<GnssFence>>)
    ensures fences.Some? <==> HasFence(Property(o, "gnssFences"), GnssOf)
    ensures fences.Some? ==> fences.value == FencesIn(Property(o, "gnssFences").value, GnssOf)
  {
    hide GnssOf;
    var list := Property(o, "gnssFences");
    HasFenceExactly(list, GnssOf);
    if list.None? || !list.value.Arr? {
      return None;
    }
    var elements := First(list.value.elements, MAX_FENCES);
    var values: seq<GnssFence> := [];
    for i := 0 to |elements|
      invariant values == Collect(elements[..i], GnssOf)
    {
      assert elements[..i + 1][..i] == elements[..i];
      var fence := ParseGnssFence(elements[i]);
      if fence.Some? {
        values := values + [fence.value];
      }
    }
    assert elements[..|elements|] == elements;
    if values == [] {
      return None;
    }
    return Some(values);
  }

  method ParseCellFences(o: Js) returns (fences: Option<seq<seq<CellInfo>>>)
    ensures fences.Some? <==> HasFence(Property(o, "cellFences"), CellFenceOf)
    ensures fences.Some? ==> fences.value == FencesIn(Property(o, "cellFences").value, CellFenceOf)
  {
    hide CellFenceOf;
    var list := Property(o, "cellFences");
    HasFenceExactly(list, CellFenceOf);
    if list.None? || !list.value.Arr? {
      return None;
    }
    var elements := First(list.value.elements, MAX_FENCES);
    var values: seq<seq<CellInfo>> := [];
    for i := 0 to |elements|
      invariant values == Collect(elements[..i], CellFenceOf)
    {
      assert elements[..i + 1][..i] == elements[..i];
      var fence := ParseCellFence(elements[i]);
      if fence.Some? {
        values := values + [fence.value];
      }
    }
    assert elements[..|elements|] == elements;
    if values == [] {
      return None;
    }
    return Some(values);
  }

  method ParseWifiFences(o: Js) returns (fences: Option<seq<WifiFence>>)
    ensures fences.Some? <==> HasFence(Property(o, "wifiFences"), WifiFenceOf)
    ensures fences.Some? ==> fences.value == FencesIn(Property(o, "wifiFences").value, WifiFenceOf)
  {
    hide WifiFenceOf;
    var list := Property(o, "wifiFences");
    HasFenceExactly(list, WifiFenceOf);
    if list.None? || !list.value.Arr? {
      return None;
    }
    var elements := First(list.value.elements, MAX_FENCES);
    var values: seq<WifiFence> := [];
    for i := 0 to |elements|
      invariant values == Collect(elements[..i], WifiFenceOf)
    {
      assert elements[..i + 1][..i] == elements[..i];
      var fence := ParseWifiFence(elements[i]);
      if fence.Some? {
        values := values + [fence.value];
      }
    }
    assert elements[..|elements|] == elements;
    if values == [] {
      return None;
    }
    return Some(values);
  }

  /** For a mask of low bits, `x & mask` is the remainder and `x & ~mask` the rest. */
  method ParseTimingFields(o: Js) returns (timing: Option<Timing>)
    ensures timing.Some? <==> AcceptsTiming(o)
    ensures timing.Some? ==> timing.value == TimingOf(o)
  {
    hide NativeEvents;
    var events := IntOf(o, "monitorTransitionEvents");
    if events.None? {
      return None;
    }
    if events.value <= 0 || events.value % JS_EVENTS != events.value {
      return None;
    }
    var loiterTimeMs := Int64Of(o, "loiterTimeMs");
    if loiterTimeMs.None? || loiterTimeMs.value < 0 {
      return None;
    }
    var expirationMs := Int64Of(o, "expirationMs");
    if expirationMs.None? || expirationMs.value <= 0 {
      return None;
    }
    var native := ConvertJsTransitionEventsToNative(events.value);
    return Some(Timing(native, loiterTimeMs.value, expirationMs.value));
  }

  /** The parser accepts exactly the objects that are requests, and returns what they stand for. */
  method ParseFusionFenceRequest(o: Js) returns (request: Option<Request>)
    ensures request.Some? <==> Accepts(o)
    ensures request.Some? ==> request.value == NormalForm(o)
  {
    hide HasFence, FencesIn, PointOf, NativeEvents, HasBit, Text;
    var identifier := TextOf(o, "identifier");
    if identifier.None? || identifier.value == "" {
      return None;
    }
    var poiType := TextOf(o, "poiType");
    var scene := IntOf(o, "scene");
    if scene.None? || (scene.value != 1 && scene.value != 2 && scene.value != 3 && scene.value != 4) {
      return None;
    }
    var fenceType := IntOf(o, "fenceType");
    if fenceType.None? {
      return None;
    }
    if fenceType.value <= 0 || fenceType.value - fenceType.value % FENCE_TYPES != 0 {
      return None;
    }
    var timing := ParseTimingFields(o);
    if timing.None? {
      return None;
    }
    var poiLocation := Property(o, "poiLocation");
    if poiLocation.None? {
      return None;
    }
    var poiPoint := PointOf(poiLocation.value);
    if poiPoint.None? {
      return None;
    }
    var fences := Fences([], [], []);
    if HasBit(fenceType.value, FUSION_FENCE_GNSS) {
      var gnss := ParseGnssFences(o);
      if gnss.None? {
        return None;
      }
      fences := fences.(gnss := gnss.value);
    }
    if HasBit(fenceType.value, FUSION_FENCE_CELLULAR) {
      var cell := ParseCellFences(o);
      if cell.None? {
        return None;
      }
      fences := fences.(cell := cell.value);
    }
    if HasBit(fenceType.value, FUSION_FENCE_WIFI) {
      var wifi := ParseWifiFences(o);
      if wifi.None? {
        return None;
      }
      fences := fences.(wifi := wifi.value);
    }
    return Some(Request(
      identifier.value, if poiType.Some? then poiType.value else "", scene.value, fenceType.value,
      timing.value, poiPoint.value, fences));
  }
}
