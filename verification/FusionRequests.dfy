/**
 Fusion-fence requests written as script objects.  Which values the parsers return, and that each of them
 is parsed back to itself: so every property of an object ends in the field of its name.
 */
module FusionRequests {
  import opened FusionFence
  import opened Integers
  import opened Javascript
  import opened Wrappers

  // ---------- values as script objects ----------

  function RenderList<T>(values: seq<T>, render: T -> Js): (o: Js)
    ensures o.Arr? && |o.elements| == |values|
  {
    Arr(seq(|values|, i requires 0 <= i < |values| => render(values[i])))
  }

  function RenderInt(i: int): Js {
    Num(i as real)
  }

  function RenderPoint(p: Point): Js {
    Obj(map["latitude" := Num(p.latitude), "longitude" := Num(p.longitude)])
  }

  function RenderGnss(f: GnssFence): Js {
    match f
    case PolygonFence(points) =>
      Obj(map["gnssFenceType" := RenderInt(GNSS_FENCE_POLYGON), "polygon" := RenderList(points, RenderPoint)])
    case CircularFence(latitude, longitude, radius, expiration) =>
      Obj(map["gnssFenceType" := RenderInt(GNSS_FENCE_CIRCULAR),
              "circularFence" := Obj(map["latitude" := Num(latitude), "longitude" := Num(longitude),
                                         "radius" := Num(radius), "expiration" := Num(expiration)])])
  }

  function RenderCellInfo(c: CellInfo): Js {
    var fields := map[
      "timeSinceBoot" := RenderInt(c.timeSinceBoot), "cellId" := RenderInt(c.cellId), "lac" := RenderInt(c.place.lac),
      "mcc" := RenderInt(c.place.mcc), "mnc" := RenderInt(c.place.mnc), "rat" := RenderInt(c.signal.rat),
      "signalIntensity" := RenderInt(c.signal.signalIntensity), "arfcn" := RenderInt(c.signal.arfcn),
      "pci" := RenderInt(c.place.pci)];
    Obj(if c.place.tac.Some? then fields["tac" := RenderInt(c.place.tac.value)] else fields)
  }

  function RenderCellFence(cellInfos: seq<CellInfo>): Js {
    if cellInfos == [] then Undefined else Obj(map["cellInfos" := RenderList(cellInfos, RenderCellInfo)])
  }

  function RenderMac(mac: string): Js {
    Str(mac)
  }

  function RenderFeature(f: WifiFeature): Js {
    Obj(map["rssiAvg" := RenderInt(f.rssiAvg), "rssiStandardDeviation" := Num(f.rssiStandardDeviation),
            "mac" := RenderList(f.mac, RenderMac)])
  }

  function RenderWifi(f: WifiFence): Js {
    Obj(map["type" := RenderInt(f.kind), "wifiFeatures" := RenderList(f.features, RenderFeature)])
  }

  function Render(r: Request): Js {
    Obj(map[
      "identifier" := Str(r.identifier), "poiType" := Str(r.poiType), "scene" := RenderInt(r.scene),
      "fenceType" := RenderInt(r.fenceType), "monitorTransitionEvents" := RenderInt(JsEvents(r.timing.events)),
      "loiterTimeMs" := RenderInt(r.timing.loiterTimeMs), "expirationMs" := RenderInt(r.timing.expirationMs),
      "poiLocation" := RenderPoint(r.poiLocation), "gnssFences" := RenderList(r.fences.gnss, RenderGnss),
      "cellFences" := RenderList(r.fences.cell, RenderCellFence),
        "wifiFences" := RenderList(r.fences.wifi, RenderWifi)])
  }

  // ---------- the values that are parsed ----------

  predicate IsInt32(i: int) {
    -TWO_TO_31 <= i < TWO_TO_31
  }

  predicate IsInt64(i: int) {
    -TWO_TO_63 <= i < TWO_TO_63
  }

  /** The texts that a script string can give. */
  predicate IsText(s: string) {
    |s| <= MAX_BUF_LEN && '\0' !in s
  }

  predicate IsPoint(p: Point) {
    -90.0 <= p.latitude <= 90.0 && -180.0 <= p.longitude <= 180.0
  }

  predicate IsPolygon(points: seq<Point>) {
    && MIN_POLYGON_POINTS <= |points| <= MAX_POLYGON_POINTS && NoDuplicates(points)
    && forall p :: p in points ==> IsPoint(p)
  }

  predicate IsGnss(f: GnssFence) {
    match f
    case PolygonFence(points) => IsPolygon(points)
    case CircularFence(_, _, _, expiration) => expiration > 0.0
  }

  predicate IsCellInfo(c: CellInfo) {
    && IsInt64(c.timeSinceBoot) && IsInt64(c.cellId)
    && IsInt32(c.place.lac) && IsInt32(c.place.mcc) && IsInt32(c.place.mnc) && IsInt32(c.place.pci)
    && (c.place.tac.Some? ==> IsInt32(c.place.tac.value))
    && IsInt32(c.signal.rat) && IsInt32(c.signal.signalIntensity) && IsInt32(c.signal.arfcn)
  }

  predicate IsCellFence(cellInfos: seq<CellInfo>) {
    |cellInfos| <= MAX_CELL_INFOS && forall c :: c in cellInfos ==> IsCellInfo(c)
  }

  predicate IsFeature(f: WifiFeature) {
    IsInt32(f.rssiAvg) && f.mac != [] && forall mac :: mac in f.mac ==> IsMac(mac)
  }

  predicate IsWifi(f: WifiFence) {
    && f.kind in {WIFI_FINGERPRINT_SEMANTIC, WIFI_FINGERPRINT_LOCATION}
    && 1 <= |f.features| <= MAX_WIFI_FEATURES && forall feature :: feature in f.features ==> IsFeature(feature)
  }

  /** `events` is the native mask of some events, one at least. */
  predicate IsTiming(t: Timing) {
    && 0 < JsEvents(t.events) < JS_EVENTS && NativeEvents(JsEvents(t.events)) == t.events
    && IsInt64(t.loiterTimeMs) && t.loiterTimeMs >= 0
    && IsInt64(t.expirationMs) && t.expirationMs > 0
  }

  /** One to thirty fences of a kind that the mask selects, and none of another. */
  predicate IsListOf<T(==)>(selected: bool, fences: seq<T>, isFence: T -> bool) {
    if selected then 1 <= |fences| <= MAX_FENCES && forall f :: f in fences ==> isFence(f) else fences == []
  }

  predicate IsRequest(r: Request) {
    && IsText(r.identifier) && r.identifier != "" && IsText(r.poiType)
    && 1 <= r.scene <= 4 && 0 < r.fenceType < FENCE_TYPES
    && IsTiming(r.timing) && IsPoint(r.poiLocation)
    && IsListOf(HasBit(r.fenceType, FUSION_FENCE_GNSS), r.fences.gnss, IsGnss)
    && IsListOf(HasBit(r.fenceType, FUSION_FENCE_CELLULAR), r.fences.cell, IsCellFence)
    && IsListOf(HasBit(r.fenceType, FUSION_FENCE_WIFI), r.fences.wifi, IsWifi)
  }

  /** The parser returns exactly these values: each is parsed from its object, and others are not parsed. */
  ghost predicate ParsesExactly<T(!new)>(parse: Js -> Option<T>, isValue: T -> bool, render: T -> Js) {
    && (forall v :: isValue(v) ==> parse(render(v)) == Some(v))
    && (forall o :: parse(o).Some? ==> isValue(parse(o).value))
  }

  // ---------- lists ----------

  lemma RenderedCollects<T(!new)>(values: seq<T>, parse: Js -> Option<T>, isValue: T -> bool, render: T -> Js)
    requires ParsesExactly(parse, isValue, render) && forall v :: v in values ==> isValue(v)
    ensures Collect(RenderList(values, render).elements, parse) == values
  {
    CollectOfAll(RenderList(values, render).elements, parse, values);
  }

  lemma CollectedAreValues<T(!new)>(elements: seq<Js>, parse: Js -> Option<T>, isValue: T -> bool, render: T -> Js)
    requires ParsesExactly(parse, isValue, render)
    ensures forall v :: v in Collect(elements, parse) ==> isValue(v)
    ensures |Collect(elements, parse)| <= |elements|
  {
    CollectIsInOrder(elements, parse);
    TakenIsShort(elements, parse);
    forall v | v in Collect(elements, parse)
      ensures isValue(v)
    {
      var i :| 0 <= i < |Collect(elements, parse)| && Collect(elements, parse)[i] == v;
      assert parse(elements[Taken(elements, parse)[i]]) == Some(v);
    }
  }

  lemma RenderedAllParse<T(!new)>(values: seq<T>, parse: Js -> Option<T>, isValue: T -> bool, render: T -> Js)
    requires ParsesExactly(parse, isValue, render) && forall v :: v in values ==> isValue(v)
    ensures All(RenderList(values, render).elements, parse) == Some(values)
  {
    AllParse(RenderList(values, render).elements, parse, values);
  }

  lemma AllAreValues<T(!new)>(elements: seq<Js>, parse: Js -> Option<T>, isValue: T -> bool, render: T -> Js)
    requires ParsesExactly(parse, isValue, render) && All(elements, parse).Some?
    ensures
      var values := All(elements, parse).value;
      |values| == |elements| && forall v :: v in values ==> isValue(v)
  {
    var values := All(elements, parse).value;
    forall v | v in values
      ensures isValue(v)
    {
      var i :| 0 <= i < |values| && values[i] == v;
      assert parse(elements[i]) == Some(v);
    }
  }

  lemma IntStays(i: int)
    requires IsInt32(i)
    ensures NumberToInt32(i as real) == i
  {
    WholeNumbersStay(i);
  }

  lemma Int64Stays(i: int)
    requires IsInt64(i)
    ensures NumberToInt64(i as real) == i
  {
    WholeNumbersStay(i);
  }

  // ---------- GNSS fences ----------

  lemma PointsParseExactly()
    ensures ParsesExactly(PointOf, IsPoint, RenderPoint)
  {
  }

  /** A polygon is parsed back to itself. */
  lemma PolygonIsReadBack(points: seq<Point>)
    requires IsPolygon(points)
    ensures PolygonOf(RenderList(points, RenderPoint)) == Some(points)
  {
    hide PointOf, RenderPoint, ParsesExactly;
    PointsParseExactly();
    RenderedCollects(points, PointOf, IsPoint, RenderPoint);
    DistinctOfDistinct(points);
  }

  lemma PolygonIsOne(o: Js)
    requires PolygonOf(o).Some?
    ensures IsPolygon(PolygonOf(o).value)
  {
    hide PointOf, RenderPoint, ParsesExactly;
    var points := Collect(First(o.elements, MAX_POLYGON_POINTS), PointOf);
    PointsParseExactly();
    CollectedAreValues(First(o.elements, MAX_POLYGON_POINTS), PointOf, IsPoint, RenderPoint);
    DistinctKeepsThePoints(points);
  }

  lemma GnssIsReadBack(f: GnssFence)
    requires IsGnss(f)
    ensures GnssOf(RenderGnss(f)) == Some(f)
  {
    hide PolygonOf, NumberToInt32;
    WholeNumbersStay(GNSS_FENCE_POLYGON);
    WholeNumbersStay(GNSS_FENCE_CIRCULAR);
    if f.PolygonFence? {
      PolygonIsReadBack(f.points);
    }
  }

  lemma GnssParsesExactly()
    ensures ParsesExactly(GnssOf, IsGnss, RenderGnss)
  {
    hide PolygonOf, NumberToInt32, IsPolygon;
    forall f | IsGnss(f)
      ensures GnssOf(RenderGnss(f)) == Some(f)
    {
      GnssIsReadBack(f);
    }
    forall o | GnssOf(o).Some?
      ensures IsGnss(GnssOf(o).value)
    {
      if GnssOf(o).value.PolygonFence? {
        PolygonIsOne(Property(o, "polygon").value);
      }
    }
  }

  // ---------- cell fences ----------

  lemma RenderedCellInfo(c: CellInfo)
    ensures
      var o := RenderCellInfo(c);
      && Property(o, "timeSinceBoot") == Some(RenderInt(c.timeSinceBoot))
      && Property(o, "cellId") == Some(RenderInt(c.cellId))
      && Property(o, "lac") == Some(RenderInt(c.place.lac)) && Property(o, "mcc") == Some(RenderInt(c.place.mcc))
      && Property(o, "mnc") == Some(RenderInt(c.place.mnc)) && Property(o, "pci") == Some(RenderInt(c.place.pci))
      && Property(o, "tac") == Some(if c.place.tac.Some? then RenderInt(c.place.tac.value) else Undefined)
      && Property(o, "rat") == Some(RenderInt(c.signal.rat)) && Property(o, "arfcn") == Some(RenderInt(c.signal.arfcn))
      && Property(o, "signalIntensity") == Some(RenderInt(c.signal.signalIntensity))
  {
  }

  lemma PlaceIsReadBack(c: CellInfo)
    requires IsCellInfo(c)
    ensures PlaceOf(RenderCellInfo(c)) == Some(c.place)
  {
    hide NumberToInt32, RenderCellInfo;
    RenderedCellInfo(c);
    IntStays(c.place.lac);
    IntStays(c.place.mcc);
    IntStays(c.place.mnc);
    IntStays(c.place.pci);
    if c.place.tac.Some? {
      IntStays(c.place.tac.value);
    }
  }

  lemma SignalIsReadBack(c: CellInfo)
    requires IsCellInfo(c)
    ensures SignalOf(RenderCellInfo(c)) == Some(c.signal)
  {
    hide NumberToInt32, RenderCellInfo;
    RenderedCellInfo(c);
    IntStays(c.signal.rat);
    IntStays(c.signal.signalIntensity);
    IntStays(c.signal.arfcn);
  }

  lemma CellInfoIsReadBack(c: CellInfo)
    requires IsCellInfo(c)
    ensures CellInfoOf(RenderCellInfo(c)) == Some(c)
  {
    hide NumberToInt64, RenderCellInfo, PlaceOf, SignalOf;
    RenderedCellInfo(c);
    PlaceIsReadBack(c);
    SignalIsReadBack(c);
    Int64Stays(c.timeSinceBoot);
    Int64Stays(c.cellId);
  }

  lemma CellInfoParsesExactly()
    ensures ParsesExactly(CellInfoOf, IsCellInfo, RenderCellInfo)
  {
    hide RenderCellInfo, NumberToInt32, NumberToInt64;
    forall c | IsCellInfo(c)
      ensures CellInfoOf(RenderCellInfo(c)) == Some(c)
    {
      CellInfoIsReadBack(c);
    }
    forall o | CellInfoOf(o).Some?
      ensures IsCellInfo(CellInfoOf(o).value)
    {
    }
  }

  lemma CellFenceParsesExactly()
    ensures ParsesExactly(CellFenceOf, IsCellFence, RenderCellFence)
  {
    hide CellInfoOf, IsCellInfo, RenderCellInfo, ParsesExactly;
    CellInfoParsesExactly();
    forall f | IsCellFence(f)
      ensures CellFenceOf(RenderCellFence(f)) == Some(f)
    {
      RenderedCollects(f, CellInfoOf, IsCellInfo, RenderCellInfo);
    }
    forall o | CellFenceOf(o).Some?
      ensures IsCellFence(CellFenceOf(o).value)
    {
      if Property(o, "cellInfos").Some? {
        var elements := First(Property(o, "cellInfos").value.elements, MAX_CELL_INFOS);
        CollectedAreValues(elements, CellInfoOf, IsCellInfo, RenderCellInfo);
      }
    }
    Exactly(CellFenceOf, IsCellFence, RenderCellFence);
  }

  lemma Exactly<T(!new)>(parse: Js -> Option<T>, isValue: T -> bool, render: T -> Js)
    requires forall v :: isValue(v) ==> parse(render(v)) == Some(v)
    requires forall o :: parse(o).Some? ==> isValue(parse(o).value)
    ensures ParsesExactly(parse, isValue, render)
  {
  }

  // ---------- wifi fences ----------

  lemma MacsParseExactly()
    ensures ParsesExactly(MacOf, IsMac, RenderMac)
  {
  }

  lemma FeatureParsesExactly()
    ensures ParsesExactly(FeatureOf, IsFeature, RenderFeature)
  {
    hide MacOf, IsMac, RenderMac, ParsesExactly, NumberToInt32;
    MacsParseExactly();
    forall f | IsFeature(f)
      ensures FeatureOf(RenderFeature(f)) == Some(f)
    {
      RenderedAllParse(f.mac, MacOf, IsMac, RenderMac);
      IntStays(f.rssiAvg);
    }
    forall o | FeatureOf(o).Some?
      ensures IsFeature(FeatureOf(o).value)
    {
      AllAreValues(Property(o, "mac").value.elements, MacOf, IsMac, RenderMac);
    }
    Exactly(FeatureOf, IsFeature, RenderFeature);
  }

  lemma WifiParsesExactly()
    ensures ParsesExactly(WifiFenceOf, IsWifi, RenderWifi)
  {
    hide FeatureOf, IsFeature, RenderFeature, ParsesExactly, NumberToInt32;
    FeatureParsesExactly();
    forall f | IsWifi(f)
      ensures WifiFenceOf(RenderWifi(f)) == Some(f)
    {
      RenderedAllParse(f.features, FeatureOf, IsFeature, RenderFeature);
      IntStays(f.kind);
    }
    forall o | WifiFenceOf(o).Some?
      ensures IsWifi(WifiFenceOf(o).value)
    {
      var elements := First(Property(o, "wifiFeatures").value.elements, MAX_WIFI_FEATURES);
      AllAreValues(elements, FeatureOf, IsFeature, RenderFeature);
    }
    Exactly(WifiFenceOf, IsWifi, RenderWifi);
  }

  // ---------- requests ----------

  lemma ListIsReadBack<T(!new)>(fences: seq<T>, parse: Js -> Option<T>, isFence: T -> bool, render: T -> Js)
    requires ParsesExactly(parse, isFence, render) && IsListOf(true, fences, isFence)
    ensures HasFence(Some(RenderList(fences, render)), parse) && FencesIn(RenderList(fences, render), parse) == fences
  {
    hide ParsesExactly;
    RenderedCollects(fences, parse, isFence, render);
    HasFenceExactly(Some(RenderList(fences, render)), parse);
  }

  lemma FencesAreAList<T(!new)>(list: Option<Js>, parse: Js -> Option<T>, isFence: T -> bool, render: T -> Js)
    requires ParsesExactly(parse, isFence, render) && HasFence(list, parse)
    ensures IsListOf(true, FencesIn(list.value, parse), isFence)
  {
    hide ParsesExactly;
    HasFenceExactly(list, parse);
    CollectedAreValues(First(list.value.elements, MAX_FENCES), parse, isFence, render);
  }

  lemma RenderedRequest(r: Request)
    ensures
      var o := Render(r);
      && Property(o, "identifier") == Some(Str(r.identifier)) && Property(o, "poiType") == Some(Str(r.poiType))
      && Property(o, "scene") == Some(RenderInt(r.scene)) && Property(o, "fenceType") == Some(RenderInt(r.fenceType))
      && Property(o, "poiLocation") == Some(RenderPoint(r.poiLocation))
  {
  }

  lemma RenderedTiming(r: Request)
    ensures
      var o := Render(r);
      && Property(o, "monitorTransitionEvents") == Some(RenderInt(JsEvents(r.timing.events)))
      && Property(o, "loiterTimeMs") == Some(RenderInt(r.timing.loiterTimeMs))
      && Property(o, "expirationMs") == Some(RenderInt(r.timing.expirationMs))
  {
  }

  lemma RenderedFences(r: Request)
    ensures
      var o := Render(r);
      && Property(o, "gnssFences") == Some(RenderList(r.fences.gnss, RenderGnss))
      && Property(o, "cellFences") == Some(RenderList(r.fences.cell, RenderCellFence))
      && Property(o, "wifiFences") == Some(RenderList(r.fences.wifi, RenderWifi))
  {
  }

  lemma TimingIsReadBack(r: Request)
    requires IsTiming(r.timing)
    ensures AcceptsTiming(Render(r)) && TimingOf(Render(r)) == r.timing
  {
    hide Render, NativeEvents, JsEvents, NumberToInt32, NumberToInt64;
    RenderedTiming(r);
    IntStays(JsEvents(r.timing.events));
    Int64Stays(r.timing.loiterTimeMs);
    Int64Stays(r.timing.expirationMs);
  }

  lemma TimingIsOne(o: Js)
    requires AcceptsTiming(o)
    ensures IsTiming(TimingOf(o))
  {
    hide NativeEvents, JsEvents, NumberToInt32, NumberToInt64;
    NativeMaskIsExact(IntOf(o, "monitorTransitionEvents").value);
  }

  lemma TextStays(s: string)
    requires IsText(s)
    ensures Text(s) == s
  {
  }

  lemma FencesAreReadBack(r: Request)
    requires IsRequest(r)
    ensures
      var f := r.fences;
      && (HasBit(r.fenceType, FUSION_FENCE_GNSS) ==>
        && HasFence(Some(RenderList(f.gnss, RenderGnss)), GnssOf)
        && FencesIn(RenderList(f.gnss, RenderGnss), GnssOf) == f.gnss)
      && (HasBit(r.fenceType, FUSION_FENCE_CELLULAR) ==>
        && HasFence(Some(RenderList(f.cell, RenderCellFence)), CellFenceOf)
        && FencesIn(RenderList(f.cell, RenderCellFence), CellFenceOf) == f.cell)
      && (HasBit(r.fenceType, FUSION_FENCE_WIFI) ==>
        && HasFence(Some(RenderList(f.wifi, RenderWifi)), WifiFenceOf)
        && FencesIn(RenderList(f.wifi, RenderWifi), WifiFenceOf) == f.wifi)
  {
    hide HasFence, FencesIn, GnssOf, CellFenceOf, WifiFenceOf, HasBit, ParsesExactly, IsTiming, IsText, IsPoint,
      RenderList, RenderGnss, RenderCellFence, RenderWifi, IsGnss, IsCellFence, IsWifi;
    GnssParsesExactly();
    CellFenceParsesExactly();
    WifiParsesExactly();
    if HasBit(r.fenceType, FUSION_FENCE_GNSS) {
      ListIsReadBack(r.fences.gnss, GnssOf, IsGnss, RenderGnss);
    }
    if HasBit(r.fenceType, FUSION_FENCE_CELLULAR) {
      ListIsReadBack(r.fences.cell, CellFenceOf, IsCellFence, RenderCellFence);
    }
    if HasBit(r.fenceType, FUSION_FENCE_WIFI) {
      ListIsReadBack(r.fences.wifi, WifiFenceOf, IsWifi, RenderWifi);
    }
  }

  /** Every request, written as a script object, is accepted and parsed back to itself ... */
  lemma RequestIsReadBack(r: Request)
    requires IsRequest(r)
    ensures Accepts(Render(r)) && NormalForm(Render(r)) == r
  {
    hide Render, RenderList, RenderPoint, RenderGnss, RenderCellFence, RenderWifi, PointOf, AcceptsTiming, TimingOf,
      HasFence, FencesIn, GnssOf, CellFenceOf, WifiFenceOf, NumberToInt32, HasBit, ParsesExactly, Text,
      IsGnss, IsCellFence, IsWifi, IsTiming;
    RenderedRequest(r);
    RenderedFences(r);
    TextStays(r.identifier);
    TextStays(r.poiType);
    IntStays(r.scene);
    IntStays(r.fenceType);
    TimingIsReadBack(r);
    FencesAreReadBack(r);
    PointIsReadBack(r.poiLocation);
  }

  lemma PointIsReadBack(p: Point)
    requires IsPoint(p)
    ensures PointOf(RenderPoint(p)) == Some(p)
  {
  }

  /** ... and the parser returns nothing else. */
  lemma AcceptedIsRequest(o: Js)
    requires Accepts(o)
    ensures IsRequest(NormalForm(o))
  {
    hide RenderList, RenderGnss, RenderCellFence, RenderWifi, AcceptsTiming, TimingOf,
      HasFence, FencesIn, GnssOf, CellFenceOf, WifiFenceOf, NumberToInt32, HasBit, ParsesExactly,
      IsGnss, IsCellFence, IsWifi, IsTiming;
    var fenceType := IntOf(o, "fenceType").value;
    TimingIsOne(o);
    GnssParsesExactly();
    CellFenceParsesExactly();
    WifiParsesExactly();
    if HasBit(fenceType, FUSION_FENCE_GNSS) {
      FencesAreAList(Property(o, "gnssFences"), GnssOf, IsGnss, RenderGnss);
    }
    if HasBit(fenceType, FUSION_FENCE_CELLULAR) {
      FencesAreAList(Property(o, "cellFences"), CellFenceOf, IsCellFence, RenderCellFence);
    }
    if HasBit(fenceType, FUSION_FENCE_WIFI) {
      FencesAreAList(Property(o, "wifiFences"), WifiFenceOf, IsWifi, RenderWifi);
    }
  }

  /** A request that the parser has accepted, written back as a script object, is accepted again and stands
      for the same request. */
  lemma RequestReparses(o: Js)
    requires Accepts(o)
    ensures Accepts(Render(NormalForm(o))) && NormalForm(Render(NormalForm(o))) == NormalForm(o)
  {
    hide Accepts, NormalForm, IsRequest;
    AcceptedIsRequest(o);
    RequestIsReadBack(NormalForm(o));
  }

  // ---------- what an object must have ----------

  /** Every named property is a number. */
  predicate HasNumbers(o: Js, names: set<string>) {
    forall name :: name in names ==> Property(o, name).Some? && Property(o, name).value.Num?
  }

  /** A point is parsed exactly from two numbers in the ranges of coordinates. */
  lemma PointNeedsExactly(o: Js)
    ensures PointOf(o).Some? <==>
      && HasNumbers(o, {"latitude", "longitude"})
      && IsPoint(Point(Property(o, "latitude").value.n, Property(o, "longitude").value.n))
  {
  }

  /** A GNSS fence is parsed exactly from a polygon or a circle, as its type says. */
  lemma GnssNeedsExactly(o: Js)
    ensures GnssOf(o).Some? <==>
      && HasNumbers(o, {"gnssFenceType"})
      && (|| (IntOf(o, "gnssFenceType") == Some(GNSS_FENCE_POLYGON) && PolygonOf(Property(o, "polygon").value).Some?)
          || (IntOf(o, "gnssFenceType") == Some(GNSS_FENCE_CIRCULAR) &&
              CircleOf(Property(o, "circularFence").value).Some?))
  {
    hide NumberToInt32, PolygonOf, CircleOf;
  }

  /** A circle is parsed exactly from four numbers of which the expiration is positive. */
  lemma CircleNeedsExactly(o: Js)
    ensures CircleOf(o).Some? <==>
      && HasNumbers(o, {"latitude", "longitude", "radius", "expiration"})
      && Property(o, "expiration").value.n > 0.0
  {
  }

  /** A cell info is parsed exactly from its nine numbers; only `tac` may be missing. */
  lemma CellInfoNeedsExactly(o: Js)
    ensures CellInfoOf(o).Some? <==> HasNumbers(o, {
      "timeSinceBoot", "cellId", "lac", "mcc", "mnc", "rat", "signalIntensity", "arfcn", "pci"})
  {
    hide NumberToInt32, NumberToInt64;
  }

  /** A wifi feature is parsed exactly from two numbers and a list of addresses, one at least. */
  lemma FeatureNeedsExactly(o: Js)
    ensures FeatureOf(o).Some? <==>
      && HasNumbers(o, {"rssiAvg", "rssiStandardDeviation"})
      && Property(o, "mac").Some? && Property(o, "mac").value.Arr? && Property(o, "mac").value.elements != []
      && forall mac :: mac in Property(o, "mac").value.elements ==> mac.Str? && IsMac(mac.s)
  {
    hide IsMac, NumberToInt32;
    var list := Property(o, "mac");
    if list.Some? && list.value.Arr? {
      assert forall i :: 0 <= i < |list.value.elements| ==> list.value.elements[i] in list.value.elements;
    }
  }

  /** The accepted objects have the numbers and the text that a request needs. */
  lemma AcceptedHas(o: Js)
    requires Accepts(o)
    ensures HasNumbers(o, {"scene", "fenceType", "monitorTransitionEvents", "loiterTimeMs", "expirationMs"})
    ensures Property(o, "identifier").value.Str? && Property(o, "poiLocation").Some?
  {
    hide NumberToInt32, NumberToInt64, HasBit, HasFence, Text;
  }

  /** The type of the place may be missing. */
  lemma MissingPoiTypeIsEmpty(o: Js)
    requires Accepts(o) && (Property(o, "poiType").None? || !Property(o, "poiType").value.Str?)
    ensures NormalForm(o).poiType == ""
  {
    hide FencesOf, TimingOf, PointOf, HasFence, HasBit, AcceptsTiming;
  }

  // ---------- addresses ----------

  lemma HexDigitsAre(c: char)
    ensures IsHexDigit(c) <==> c in "0123456789abcdefABCDEF"
  {
    var digits := "0123456789abcdefABCDEF";
    if IsHexDigit(c) {
      var i := if c <= '9' then c as int - '0' as int
               else if c <= 'F' then 16 + (c as int - 'A' as int)
               else 10 + (c as int - 'a' as int);
      assert digits[i] == c;
    }
  }

  predicate IsPair(s: string) {
    |s| == 2 && IsHexDigit(s[0]) && IsHexDigit(s[1])
  }

  /** An address is six pairs of hexadecimal digits joined by colons. */
  lemma MacIsSixPairs(a: string, b: string, c: string, d: string, e: string, f: string)
    requires |a| == |b| == |c| == |d| == |e| == |f| == 2
    ensures IsMac(a + ":" + b + ":" + c + ":" + d + ":" + e + ":" + f) <==>
      IsPair(a) && IsPair(b) && IsPair(c) && IsPair(d) && IsPair(e) && IsPair(f)
  {
    var s := a + ":" + b + ":" + c + ":" + d + ":" + e + ":" + f;
    assert s[0] == a[0] && s[1] == a[1] && s[2] == ':' && s[3] == b[0] && s[4] == b[1] && s[5] == ':';
    assert s[6] == c[0] && s[7] == c[1] && s[8] == ':' && s[9] == d[0] && s[10] == d[1] && s[11] == ':';
    assert s[12] == e[0] && s[13] == e[1] && s[14] == ':' && s[15] == f[0] && s[16] == f[1];
  }
}
