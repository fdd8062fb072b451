/**
 The codec of a location with its points of interest, and of the batch of cached locations.
 */
module LocationCodec {
  import opened Integers
  import opened Wrappers
  import opened Parcels

  const MAX_POI_ARRAY_SIZE := 20
  const MAXIMUM_CACHE_LOCATIONS := 1000

  datatype Poi = Poi(id: string, confidence: Double, name: string, latitude: Double, longitude: Double,
    administrativeArea: string, subAdministrativeArea: string, locality: string, subLocality: string,
    address: string, additionalInfo: string)

  datatype PoiInfo = PoiInfo(timestamp: uint64, pois: seq<Poi>)

  /** The fields a parcel carries. */
  datatype Carried = Carried(latitude: Double, longitude: Double, altitude: Double, accuracy: Double,
    speed: Double, direction: Double, timeStamp: int64, timeSinceBoot: int64, additionSize: int64,
    additions: seq<string>, isFromMock: bool, isSystemApp: int32, altitudeAccuracy: Double,
    speedAccuracy: Double, directionAccuracy: Double, uncertaintyOfTimeSinceBoot: int64,
    locationSourceType: int32, uuid: string, fieldValidity: int32, poiInfo: PoiInfo)

  /** -91.0 and -181.0, the values of a location that has no coordinates. */
  const BELOW_MIN_LATITUDE: Double := Double(-91)
  const BELOW_MIN_LONGITUDE: Double := Double(-181)

  type Additions = map<string, string>

  function WritePoi(p: Poi, s: Stream): Stream {
    Put(Text(p.id), Put(Float64(p.confidence), Put(Text(p.name), Put(Float64(p.latitude), Put(Float64(p.longitude),
      Put(Text(p.administrativeArea), Put(Text(p.subAdministrativeArea), Put(Text(p.locality),
      Put(Text(p.subLocality), Put(Text(p.address), Put(Text(p.additionalInfo), s)))))))))))
  }

  function ReadPoi(s: Stream): Read<Poi> {
    var id := ReadString(s);
    var confidence := ReadDouble(id.rest);
    var name := ReadString(confidence.rest);
    var latitude := ReadDouble(name.rest);
    var longitude := ReadDouble(latitude.rest);
    var area := ReadString(longitude.rest);
    var subArea := ReadString(area.rest);
    var locality := ReadString(subArea.rest);
    var subLocality := ReadString(locality.rest);
    var address := ReadString(subLocality.rest);
    var info := ReadString(address.rest);
    Read(Poi(id.value, confidence.value, name.value, latitude.value, longitude.value, area.value, subArea.value,
      locality.value, subLocality.value, address.value, info.value), info.rest)
  }

  function WritePois(ps: seq<Poi>, s: Stream): Stream {
    if ps == [] then s else WritePoi(ps[0], WritePois(ps[1..], s))
  }

  function ReadPois(n: nat, s: Stream): (r: Read<seq<Poi>>)
    ensures |r.value| == n
  {
    if n == 0 then Read([], s)
    else
      var first := ReadPoi(s);
      var others := ReadPois(n - 1, first.rest);
      Read([first.value] + others.value, others.rest)
  }

  function WritePoiInfo(p: PoiInfo, s: Stream): Stream {
    Put(Uint64(p.timestamp), Put(Uint32(ToUint32(|p.pois|)), WritePois(p.pois, s)))
  }

  function ReadPoiInfo(s: Stream): Read<PoiInfo> {
    var timestamp := ReadUint64(s);
    var size := ReadUint32(timestamp.rest);
    var pois := ReadPois(Capped(size.value, MAX_POI_ARRAY_SIZE), size.rest);
    Read(PoiInfo(timestamp.value, pois.value), pois.rest)
  }

  function ToTexts16(additions: seq<string>): seq<String16> {
    seq(|additions|, i requires 0 <= i < |additions| => Str8ToStr16(additions[i]))
  }

  /** Empty additions are dropped when read. */
  function FromTexts16(texts: seq<String16>): seq<string> {
    if texts == [] then []
    else
      var last := Str16ToStr8(texts[|texts| - 1]);
      FromTexts16(texts[..|texts| - 1]) + if last == "" then [] else [last]
  }

  /** Position, times and additions. */
  function WriteMotion(l: Carried, s: Stream): Stream {
    Put(Float64(l.latitude), Put(Float64(l.longitude), Put(Float64(l.altitude), Put(Float64(l.accuracy),
      Put(Float64(l.speed), Put(Float64(l.direction), Put(Int64(l.timeStamp), Put(Int64(l.timeSinceBoot),
      Put(Int64(l.additionSize), Put(Text16Vector(ToTexts16(l.additions)), s))))))))))
  }

  /** Origin and accuracies. */
  function WriteOrigin(l: Carried, s: Stream): Stream {
    Put(Boolean(l.isFromMock), Put(Int32(l.isSystemApp), Put(Float64(l.altitudeAccuracy), Put(Float64(l.speedAccuracy),
      Put(Float64(l.directionAccuracy), Put(Int64(l.uncertaintyOfTimeSinceBoot), Put(Int32(l.locationSourceType),
      Put(Text16(Str8ToStr16(l.uuid)), Put(Int32(l.fieldValidity), s)))))))))
  }

  function WriteLocation(l: Carried, s: Stream): Stream {
    WriteMotion(l, WriteOrigin(l, WritePoiInfo(l.poiInfo, s)))
  }

  function ReadLocation(s: Stream): Read<Carried> {
    var latitude := ReadDouble(s);
    var longitude := ReadDouble(latitude.rest);
    var altitude := ReadDouble(longitude.rest);
    var accuracy := ReadDouble(altitude.rest);
    var speed := ReadDouble(accuracy.rest);
    var direction := ReadDouble(speed.rest);
    var timeStamp := ReadInt64(direction.rest);
    var timeSinceBoot := ReadInt64(timeStamp.rest);
    var additionSize := ReadInt64(timeSinceBoot.rest);
    var additions := ReadString16Vector(additionSize.rest);
    var isFromMock := ReadBool(additions.rest);
    var isSystemApp := ReadInt32(isFromMock.rest);
    var altitudeAccuracy := ReadDouble(isSystemApp.rest);
    var speedAccuracy := ReadDouble(altitudeAccuracy.rest);
    var directionAccuracy := ReadDouble(speedAccuracy.rest);
    var uncertainty := ReadInt64(directionAccuracy.rest);
    var source := ReadInt32(uncertainty.rest);
    var uuid := ReadString16(source.rest);
    var fieldValidity := ReadInt32(uuid.rest);
    var poiInfo := ReadPoiInfo(fieldValidity.rest);
    Read(Carried(latitude.value, longitude.value, altitude.value, accuracy.value, speed.value, direction.value,
      timeStamp.value, timeSinceBoot.value, additionSize.value, FromTexts16(additions.value), isFromMock.value,
      isSystemApp.value, altitudeAccuracy.value, speedAccuracy.value, directionAccuracy.value, uncertainty.value,
      source.value, Str16ToStr8(uuid.value), fieldValidity.value, poiInfo.value), poiInfo.rest)
  }

  // ---------- the order on the wire ----------

  lemma PoiLayout(p: Poi)
    ensures WritePoi(p, []) == [
      Text(p.id), Float64(p.confidence), Text(p.name), Float64(p.latitude), Float64(p.longitude),
      Text(p.administrativeArea), Text(p.subAdministrativeArea), Text(p.locality), Text(p.subLocality),
      Text(p.address), Text(p.additionalInfo)]
  {
  }

  lemma MotionLayout(l: Carried)
    ensures WriteMotion(l, []) == [
      Float64(l.latitude), Float64(l.longitude), Float64(l.altitude), Float64(l.accuracy), Float64(l.speed),
      Float64(l.direction), Int64(l.timeStamp), Int64(l.timeSinceBoot), Int64(l.additionSize),
      Text16Vector(ToTexts16(l.additions))]
  {
  }

  lemma OriginLayout(l: Carried)
    ensures WriteOrigin(l, []) == [
      Boolean(l.isFromMock), Int32(l.isSystemApp), Float64(l.altitudeAccuracy), Float64(l.speedAccuracy),
      Float64(l.directionAccuracy), Int64(l.uncertaintyOfTimeSinceBoot), Int32(l.locationSourceType),
      Text16(Str8ToStr16(l.uuid)), Int32(l.fieldValidity)]
  {
  }

  // ---------- reading back ----------

  lemma PoiIsReadBack(p: Poi, s: Stream)
    ensures ReadPoi(WritePoi(p, s)) == Read(p, s)
  {
    hide Put, ReadString, ReadDouble;
    PutIsReadBack();
  }

  lemma {:induction false} PoisAreReadBack(read: seq<Poi>, left: seq<Poi>, s: Stream)
    ensures ReadPois(|read|, WritePois(read + left, s)) == Read(read, WritePois(left, s))
  {
    hide WritePoi, ReadPoi;
    if read == [] {
      assert read + left == left;
    } else {
      assert (read + left)[1..] == read[1..] + left;
      PoiIsReadBack(read[0], WritePois(read[1..] + left, s));
      PoisAreReadBack(read[1..], left, s);
      assert read == [read[0]] + read[1..];
    }
  }

  predicate PoisFit(p: PoiInfo) {
    |p.pois| <= MAX_POI_ARRAY_SIZE
  }

  /** The number of points of interest a reader keeps; the count is written as 32 bits. */
  function Kept(p: PoiInfo): (n: nat)
    ensures n <= |p.pois| && n <= MAX_POI_ARRAY_SIZE
    ensures |p.pois| <= MAX_POI_ARRAY_SIZE ==> n == |p.pois|
    ensures MAX_POI_ARRAY_SIZE < |p.pois| < TWO_TO_32 ==> n == MAX_POI_ARRAY_SIZE
  {
    Capped(ToUint32(|p.pois|), MAX_POI_ARRAY_SIZE)
  }

  lemma PoiInfoIsReadBack(p: PoiInfo, s: Stream)
    ensures ReadPoiInfo(WritePoiInfo(p, s)) ==
      Read(p.(pois := p.pois[..Kept(p)]), WritePois(p.pois[Kept(p)..], s))
  {
    hide Put, ReadUint64, ReadUint32, ReadPois, WritePois;
    PutIsReadBack();
    assert p.pois[..Kept(p)] + p.pois[Kept(p)..] == p.pois;
    PoisAreReadBack(p.pois[..Kept(p)], p.pois[Kept(p)..], s);
  }

  function WithoutEmpty(additions: seq<string>): seq<string> {
    if additions == [] then []
    else
      var last := additions[|additions| - 1];
      WithoutEmpty(additions[..|additions| - 1]) + if last == "" then [] else [last]
  }

  lemma {:induction false} AdditionsAreReadBack(additions: seq<string>)
    ensures FromTexts16(ToTexts16(additions)) == WithoutEmpty(additions)
  {
    if additions == [] {
    } else {
      var n := |additions| - 1;
      AdditionsAreReadBack(additions[..n]);
      assert ToTexts16(additions)[..n] == ToTexts16(additions[..n]);
    }
  }

  lemma {:induction false} NothingToDrop(additions: seq<string>)
    ensures WithoutEmpty(additions) == additions <==> forall i :: 0 <= i < |additions| ==> additions[i] != ""
    ensures |WithoutEmpty(additions)| <= |additions|
  {
    if additions == [] {
    } else {
      var n := |additions| - 1;
      NothingToDrop(additions[..n]);
      assert additions == additions[..n] + [additions[n]];
    }
  }

  /** What the reader makes of a location. */
  function AsRead(l: Carried): Carried {
    l.(additions := WithoutEmpty(l.additions), poiInfo := l.poiInfo.(pois := l.poiInfo.pois[..Kept(l.poiInfo)]))
  }

  /** Any location comes back without empty additions and with its first 20 points of interest; the
      other points stay unread. */
  lemma LocationIsReadBack(l: Carried, s: Stream)
    ensures ReadLocation(WriteLocation(l, s)) == Read(AsRead(l), WritePois(l.poiInfo.pois[Kept(l.poiInfo)..], s))
  {
    hide Put, ReadDouble, ReadInt64, ReadInt32, ReadBool, ReadString16, ReadString16Vector,
      ReadPoiInfo, WritePoiInfo, FromTexts16, ToTexts16, WithoutEmpty;
    PutIsReadBack();
    AdditionsAreReadBack(l.additions);
    PoiInfoIsReadBack(l.poiInfo, s);
  }

  // ---------- the additions map ----------

  /** Where the first ':' is, or the length when there is none. */
  function ColonAt(a: string): (n: nat)
    ensures n <= |a| && (n < |a| ==> a[n] == ':')
    ensures forall i :: 0 <= i < n ==> a[i] != ':'
  {
    if a == [] || a[0] == ':' then 0 else 1 + ColonAt(a[1..])
  }

  /** The text before the first ':', or all of it. */
  function KeyOf(a: string): string {
    a[..ColonAt(a)]
  }

  /** The text after the first ':'.  Without one, all but the last character. */
  function ValueOf(a: string): string {
    if ColonAt(a) < |a| then a[ColonAt(a) + 1..] else if a == "" then "" else a[..|a| - 1]
  }

  /** What an addition says: split at its first colon. */
  lemma WrittenAddition(k: string, v: string)
    requires ':' !in k
    ensures KeyOf(k + ":" + v) == k && ValueOf(k + ":" + v) == v
  {
    var a := k + ":" + v;
    assert a[|k|] == ':' && forall i :: 0 <= i < |k| ==> a[i] == k[i];
    assert ColonAt(a) == |k|;
    assert a[..|k|] == k && a[|k| + 1..] == v;
  }

  /** Without a colon the whole text is the key, and the value lacks its last character. */
  lemma AdditionWithoutColon(k: string, c: char)
    requires ':' !in k && c != ':'
    ensures KeyOf(k + [c]) == k + [c] && ValueOf(k + [c]) == k
    ensures KeyOf("") == "" && ValueOf("") == ""
  {
    var a := k + [c];
    assert forall i :: 0 <= i < |k| ==> a[i] == k[i];
    assert a[|k|] == c && ColonAt(a) == |a|;
    assert a[..|k|] == k;
  }

  /** Later additions overwrite earlier ones of the same key. */
  function MapOnto(m: Additions, additions: seq<string>): Additions {
    if additions == [] then m
    else
      var last := additions[|additions| - 1];
      MapOnto(m, additions[..|additions| - 1])[KeyOf(last) := ValueOf(last)]
  }

  ghost predicate IsLastOf(additions: seq<string>, key: string, i: int) {
    && 0 <= i < |additions| && KeyOf(additions[i]) == key
    && forall j :: i < j < |additions| ==> KeyOf(additions[j]) != key
  }

  ghost predicate HasKey(additions: seq<string>, key: string) {
    exists i :: 0 <= i < |additions| && KeyOf(additions[i]) == key
  }

  lemma HasKeySplits(additions: seq<string>, key: string)
    requires additions != []
    ensures
      var n := |additions| - 1;
      HasKey(additions, key) <==> HasKey(additions[..n], key) || KeyOf(additions[n]) == key
  {
    hide KeyOf;
    var n := |additions| - 1;
    if HasKey(additions[..n], key) {
      var i :| 0 <= i < n && KeyOf(additions[..n][i]) == key;
      assert KeyOf(additions[i]) == key;
    }
  }

  /** A key is in the map exactly when it was before or some addition has it ... */
  lemma {:induction false} MapHasTheKeys(m: Additions, additions: seq<string>, key: string)
    ensures key in MapOnto(m, additions) <==> key in m || HasKey(additions, key)
    ensures key in m && !HasKey(additions, key) ==> MapOnto(m, additions)[key] == m[key]
  {
    hide KeyOf, ValueOf, HasKey;
    if additions == [] {
      NoKeys(key);
    } else {
      HasKeySplits(additions, key);
      MapHasTheKeys(m, additions[..|additions| - 1], key);
    }
  }

  lemma NoKeys(key: string)
    ensures !HasKey([], key)
  {
  }

  lemma {:induction false} LastOneWins(m: Additions, additions: seq<string>, key: string, i: nat)
    requires IsLastOf(additions, key, i)
    ensures key in MapOnto(m, additions) && MapOnto(m, additions)[key] == ValueOf(additions[i])
  {
    hide KeyOf, ValueOf;
    if i < |additions| - 1 {
      LastOneWins(m, additions[..|additions| - 1], key, i);
    }
  }

  /** ... and the last addition that is written with the key gives the value that is written there. */
  lemma LastAdditionWins(m: Additions, additions: seq<string>, k: string, v: string, i: nat)
    requires i < |additions| && ':' !in k && additions[i] == k + ":" + v
    requires forall j :: i < j < |additions| ==> KeyOf(additions[j]) != k
    ensures k in MapOnto(m, additions) && MapOnto(m, additions)[k] == v
  {
    hide KeyOf, ValueOf, MapOnto;
    WrittenAddition(k, v);
    LastOneWins(m, additions, k, i);
  }

  lemma OneMoreAddition(m: Additions, before: seq<string>, last: string)
    ensures MapOnto(m, before + [last]) == MapOnto(m, before)[KeyOf(last) := ValueOf(last)]
  {
    assert (before + [last])[..|before|] == before;
  }

  lemma NoTexts(m: Additions)
    ensures FromTexts16([]) == [] && MapOnto(m, []) == m
  {
  }

  lemma OneMoreText(texts: seq<String16>, i: nat)
    requires i < |texts|
    ensures
      var last := Str16ToStr8(texts[i]);
      FromTexts16(texts[..i + 1]) == if last == "" then FromTexts16(texts[..i]) else FromTexts16(texts[..i]) + [last]
  {
    assert texts[..i + 1][..i] == texts[..i];
  }

  // ---------- batches ----------

  function WriteLocations(ls: seq<Carried>, s: Stream): Stream {
    if ls == [] then s else WriteLocation(ls[0], WriteLocations(ls[1..], s))
  }

  function ReadLocations(n: nat, s: Stream): (r: Read<seq<Carried>>)
    ensures |r.value| == n
  {
    if n == 0 then Read([], s)
    else
      var first := ReadLocation(s);
      var others := ReadLocations(n - 1, first.rest);
      Read([first.value] + others.value, others.rest)
  }

  function WriteBatch(ls: seq<Carried>, s: Stream): Stream {
    Put(Int32(ToInt32(|ls|)), WriteLocations(ls, s))
  }

  /** The locations handed on, or none when the count is out of range. */
  function ReadBatch(s: Stream): Read<Option<seq<Carried>>> {
    var size := ReadInt32(s);
    if 0 < size.value < MAXIMUM_CACHE_LOCATIONS then
      var locations := ReadLocations(size.value, size.rest);
      Read(Some(locations.value), locations.rest)
    else
      Read(None, size.rest)
  }

  /** A location that survives the trip. */
  predicate LocationFits(l: Carried) {
    PoisFit(l.poiInfo) && forall i :: 0 <= i < |l.additions| ==> l.additions[i] != ""
  }

  lemma FittingLocationIsReadBack(l: Carried, s: Stream)
    requires LocationFits(l)
    ensures ReadLocation(WriteLocation(l, s)) == Read(l, s)
  {
    hide ReadLocation, WriteLocation;
    LocationIsReadBack(l, s);
    NothingToDrop(l.additions);
    assert l.poiInfo.pois[..Kept(l.poiInfo)] == l.poiInfo.pois;
    assert l.poiInfo.pois[Kept(l.poiInfo)..] == [];
  }

  lemma {:induction false} PoisLength(ps: seq<Poi>, s: Stream)
    ensures |WritePois(ps, s)| == 11 * |ps| + |s|
    ensures ps != [] ==> WritePois(ps, s)[0].Text?
  {
    if ps == [] {
    } else {
      PoisLength(ps[1..], s);
    }
  }

  /** A location that does not fit spoils its own value or what follows it. */
  lemma MisfitIsLost(l: Carried, s: Stream)
    requires !LocationFits(l)
    ensures
      var r := ReadLocation(WriteLocation(l, s));
      r.value != l || (|r.rest| > |s| && r.rest[0].Text?)
  {
    hide ReadLocation, WriteLocation;
    LocationIsReadBack(l, s);
    NothingToDrop(l.additions);
    if !PoisFit(l.poiInfo) {
      PoisLength(l.poiInfo.pois[Kept(l.poiInfo)..], s);
    }
  }

  lemma TextStopsLocation(s: Stream)
    requires s != [] && s[0].Text?
    ensures ReadLocation(s).rest == s
  {
  }

  lemma {:induction false} TextStopsLocations(n: nat, s: Stream)
    requires s != [] && s[0].Text?
    ensures ReadLocations(n, s).rest == s
  {
    hide ReadLocation;
    if n == 0 {
    } else {
      TextStopsLocation(s);
      TextStopsLocations(n - 1, s);
    }
  }

  lemma LocationLength(l: Carried, s: Stream)
    ensures |WriteLocation(l, s)| > |s|
  {
    hide WritePois;
    PoisLength(l.poiInfo.pois, s);
  }

  lemma {:induction false} LocationsLength(ls: seq<Carried>, s: Stream)
    ensures |WriteLocations(ls, s)| >= |s|
  {
    hide WriteLocation;
    if ls == [] {
    } else {
      LocationsLength(ls[1..], s);
      LocationLength(ls[0], WriteLocations(ls[1..], s));
    }
  }

  lemma {:induction false} LocationsRoundTripExactlyWhenTheyFit(ls: seq<Carried>, s: Stream)
    ensures ReadLocations(|ls|, WriteLocations(ls, s)) == Read(ls, s) <==>
      forall i :: 0 <= i < |ls| ==> LocationFits(ls[i])
  {
    hide ReadLocation, WriteLocation, LocationFits;
    if ls == [] {
    } else {
      var inner := WriteLocations(ls[1..], s);
      var first := ReadLocation(WriteLocation(ls[0], inner));
      var others := ReadLocations(|ls| - 1, first.rest);
      assert ls == [ls[0]] + ls[1..];
      if LocationFits(ls[0]) {
        FittingLocationIsReadBack(ls[0], inner);
        LocationsRoundTripExactlyWhenTheyFit(ls[1..], s);
        assert ([first.value] + others.value)[1..] == others.value;
      } else {
        MisfitIsLost(ls[0], inner);
        assert ([first.value] + others.value)[0] == first.value;
        if first.value == ls[0] {
          TextStopsLocations(|ls| - 1, first.rest);
          LocationsLength(ls[1..], s);
        }
      }
    }
  }

  /** A written batch is delivered as it was, with the stream behind it untouched, exactly when it
      holds 1 to 999 locations that all fit. */
  lemma BatchRoundTripExactlyWhenItFits(ls: seq<Carried>, s: Stream)
    ensures ReadBatch(WriteBatch(ls, s)) == Read(Some(ls), s) <==>
      0 < |ls| < MAXIMUM_CACHE_LOCATIONS && forall i :: 0 <= i < |ls| ==> LocationFits(ls[i])
  {
    hide ReadLocations, WriteLocations, LocationFits;
    if |ls| < MAXIMUM_CACHE_LOCATIONS {
      LocationsRoundTripExactlyWhenTheyFit(ls, s);
    }
  }

  // ---------- the objects ----------

  class Location {
    var fields: Carried
    var floorNo: int32
    var floorAccuracy: Double
    var additionsMap: Additions

    constructor ()
      ensures fields.additions == [] && additionsMap == map[] && floorNo == 0 && floorAccuracy == ZERO
    {
      fields := Carried(
        BELOW_MIN_LATITUDE, BELOW_MIN_LONGITUDE, ZERO, ZERO, ZERO, ZERO,
        0, 0, 0, [], false, 0, ZERO, ZERO, ZERO, 0, 0, "", 0,
        PoiInfo(0, []));
      floorNo, floorAccuracy, additionsMap := 0, ZERO, map[];
    }

    method VectorString16ToVectorString8(additions: seq<String16>)
      modifies this
      ensures fields == old(fields).(additions := old(fields.additions) + FromTexts16(additions))
      ensures additionsMap == MapOnto(old(additionsMap), FromTexts16(additions))
      ensures floorNo == old(floorNo) && floorAccuracy == old(floorAccuracy)
    {
      hide MapOnto, KeyOf, ValueOf, FromTexts16;
      NoTexts(old(additionsMap));
      for i := 0 to |additions|
        invariant fields == old(fields).(additions := old(fields.additions) + FromTexts16(additions[..i]))
        invariant additionsMap == MapOnto(old(additionsMap), FromTexts16(additions[..i]))
        invariant floorNo == old(floorNo) && floorAccuracy == old(floorAccuracy)
      {
        ghost var done := FromTexts16(additions[..i]);
        var additionString := Str16ToStr8(additions[i]);
        OneMoreText(additions, i);
        if additionString == "" {
          continue;
        }
        OneMoreAddition(old(additionsMap), done, additionString);
        fields := fields.(additions := fields.additions + [additionString]);
        additionsMap := additionsMap[KeyOf(additionString) := ValueOf(additionString)];
      }
      assert additions[..|additions|] == additions;
    }

    /** Additions that the object holds already stay, and those read are added to them. */
    method ReadFromParcel(parcel: Parcel)
      requires parcel.Valid()
      modifies this, parcel
      ensures parcel.Valid()
      ensures
        var r := ReadLocation(old(parcel.Unread()));
        && fields == r.value.(additions := old(fields.additions) + r.value.additions) && parcel.Unread() == r.rest
        && additionsMap == MapOnto(old(additionsMap), r.value.additions)
      ensures floorNo == old(floorNo) && floorAccuracy == old(floorAccuracy)
    {
      hide ReadDouble, ReadInt64, ReadInt32, ReadBool, ReadString16, ReadString16Vector, ReadPoiInfo, FromTexts16,
        Parcel.Unread, Parcel.Valid;
      var latitude := parcel.TakeDouble();
      var longitude := parcel.TakeDouble();
      var altitude := parcel.TakeDouble();
      var accuracy := parcel.TakeDouble();
      var speed := parcel.TakeDouble();
      var direction := parcel.TakeDouble();
      var timeStamp := parcel.TakeInt64();
      var timeSinceBoot := parcel.TakeInt64();
      var additionSize := parcel.TakeInt64();
      var additions := parcel.TakeString16Vector();
      var isFromMock := parcel.TakeBool();
      var isSystemApp := parcel.TakeInt32();
      var altitudeAccuracy := parcel.TakeDouble();
      var speedAccuracy := parcel.TakeDouble();
      var directionAccuracy := parcel.TakeDouble();
      var uncertainty := parcel.TakeInt64();
      var source := parcel.TakeInt32();
      var uuid := parcel.TakeString16();
      var fieldValidity := parcel.TakeInt32();
      fields := Carried(latitude, longitude, altitude, accuracy, speed, direction, timeStamp, timeSinceBoot,
        additionSize, fields.additions, isFromMock, isSystemApp, altitudeAccuracy, speedAccuracy, directionAccuracy,
        uncertainty, source, Str16ToStr8(uuid), fieldValidity, fields.poiInfo);
      VectorString16ToVectorString8(additions);
      var poiInfo := ReadPoiInfoFromParcel(parcel);
      fields := fields.(poiInfo := poiInfo);
    }

    method Marshalling(parcel: Parcel)
      requires parcel.Valid()
      modifies parcel
      ensures parcel.Valid() && parcel.Unread() == old(parcel.Unread()) + WriteLocation(fields, [])
    {
      hide WriteMotion, WriteOrigin, WritePoiInfo, Parcel.Unread, Parcel.Valid;
      WriteMotionToParcel(fields, parcel);
      WriteOriginToParcel(fields, parcel);
      WritePoiInfoToParcel(fields.poiInfo, parcel);
      LocationMovesFront(fields);
      Regroup(old(parcel.Unread()), WriteMotion(fields, []), WriteOrigin(fields, []), WritePoiInfo(fields.poiInfo, []));
    }
  }

  lemma LocationMovesFront(l: Carried)
    ensures WriteLocation(l, []) == WriteMotion(l, []) + WriteOrigin(l, []) + WritePoiInfo(l.poiInfo, [])
  {
    hide WriteMotion, WriteOrigin, WritePoiInfo;
    OriginMovesFront(l, WritePoiInfo(l.poiInfo, []));
    MotionMovesFront(l, WriteOrigin(l, []) + WritePoiInfo(l.poiInfo, []));
  }

  lemma MotionMovesFront(l: Carried, s: Stream)
    ensures WriteMotion(l, s) == WriteMotion(l, []) + s
  {
    hide Put;
    PutMovesFront();
    assert [] + s == s;
  }

  lemma OriginMovesFront(l: Carried, s: Stream)
    ensures WriteOrigin(l, s) == WriteOrigin(l, []) + s
  {
    hide Put;
    PutMovesFront();
    assert [] + s == s;
  }

  method WriteMotionToParcel(l: Carried, parcel: Parcel)
    requires parcel.Valid()
    modifies parcel
    ensures parcel.Valid() && parcel.Unread() == old(parcel.Unread()) + WriteMotion(l, [])
  {
    hide Put, Parcel.Unread, Parcel.Valid;
    PutShifts();
    parcel.Write(Float64(l.latitude));
    parcel.Write(Float64(l.longitude));
    parcel.Write(Float64(l.altitude));
    parcel.Write(Float64(l.accuracy));
    parcel.Write(Float64(l.speed));
    parcel.Write(Float64(l.direction));
    parcel.Write(Int64(l.timeStamp));
    parcel.Write(Int64(l.timeSinceBoot));
    parcel.Write(Int64(l.additionSize));
    parcel.Write(Text16Vector(ToTexts16(l.additions)));
  }

  method WriteOriginToParcel(l: Carried, parcel: Parcel)
    requires parcel.Valid()
    modifies parcel
    ensures parcel.Valid() && parcel.Unread() == old(parcel.Unread()) + WriteOrigin(l, [])
  {
    hide Put, Parcel.Unread, Parcel.Valid;
    PutShifts();
    parcel.Write(Boolean(l.isFromMock));
    parcel.Write(Int32(l.isSystemApp));
    parcel.Write(Float64(l.altitudeAccuracy));
    parcel.Write(Float64(l.speedAccuracy));
    parcel.Write(Float64(l.directionAccuracy));
    parcel.Write(Int64(l.uncertaintyOfTimeSinceBoot));
    parcel.Write(Int32(l.locationSourceType));
    parcel.Write(Text16(Str8ToStr16(l.uuid)));
    parcel.Write(Int32(l.fieldValidity));
  }

  method ReadPoiFromParcel(parcel: Parcel) returns (poi: Poi)
    requires parcel.Valid()
    modifies parcel
    ensures parcel.Valid() && Read(poi, parcel.Unread()) == ReadPoi(old(parcel.Unread()))
  {
    hide ReadString, ReadDouble, Parcel.Unread, Parcel.Valid;
    var id := parcel.TakeString();
    var confidence := parcel.TakeDouble();
    var name := parcel.TakeString();
    var latitude := parcel.TakeDouble();
    var longitude := parcel.TakeDouble();
    var area := parcel.TakeString();
    var subArea := parcel.TakeString();
    var locality := parcel.TakeString();
    var subLocality := parcel.TakeString();
    var address := parcel.TakeString();
    var info := parcel.TakeString();
    poi := Poi(id, confidence, name, latitude, longitude, area, subArea, locality, subLocality, address, info);
  }

  lemma ReadPoisHead(n: nat, s: Stream, before: seq<Poi>)
    ensures n == 0 ==> ReadPois(n, s) == Read([], s)
    ensures n > 0 ==>
      var first := ReadPoi(s);
      var others := ReadPois(n - 1, first.rest);
      && before + ReadPois(n, s).value == (before + [first.value]) + others.value
      && ReadPois(n, s).rest == others.rest
  {
    hide ReadPoi;
  }

  method ReadPoiInfoFromParcel(parcel: Parcel) returns (data: PoiInfo)
    requires parcel.Valid()
    modifies parcel
    ensures parcel.Valid() && Read(data, parcel.Unread()) == ReadPoiInfo(old(parcel.Unread()))
  {
    hide ReadUint64, ReadUint32, ReadPoi, ReadPois, Parcel.Unread, Parcel.Valid;
    var timestamp := parcel.TakeUint64();
    var size: nat := parcel.TakeUint32();
    if size > MAX_POI_ARRAY_SIZE {
      size := MAX_POI_ARRAY_SIZE;
    }
    var pois: seq<Poi> := [];
    ghost var all := ReadPois(size, parcel.Unread());
    assert pois + all.value == all.value;
    for i := 0 to size
      invariant parcel.Valid()
      invariant
        var left := ReadPois(size - i, parcel.Unread());
        pois + left.value == all.value && left.rest == all.rest
    {
      ReadPoisHead(size - i, parcel.Unread(), pois);
      var poi := ReadPoiFromParcel(parcel);
      pois := pois + [poi];
    }
    ReadPoisHead(0, parcel.Unread(), pois);
    assert pois + [] == pois;
    data := PoiInfo(timestamp, pois);
  }

  lemma PoiMovesFront(p: Poi, s: Stream)
    ensures WritePoi(p, s) == WritePoi(p, []) + s
  {
    hide Put;
    PutMovesFront();
    assert [] + s == s;
  }

  method WritePoiToParcel(poi: Poi, parcel: Parcel)
    requires parcel.Valid()
    modifies parcel
    ensures parcel.Valid() && parcel.Unread() == old(parcel.Unread()) + WritePoi(poi, [])
  {
    hide Put, Parcel.Unread, Parcel.Valid;
    PutShifts();
    parcel.Write(Text(poi.id));
    parcel.Write(Float64(poi.confidence));
    parcel.Write(Text(poi.name));
    parcel.Write(Float64(poi.latitude));
    parcel.Write(Float64(poi.longitude));
    parcel.Write(Text(poi.administrativeArea));
    parcel.Write(Text(poi.subAdministrativeArea));
    parcel.Write(Text(poi.locality));
    parcel.Write(Text(poi.subLocality));
    parcel.Write(Text(poi.address));
    parcel.Write(Text(poi.additionalInfo));
  }

  method WritePoiInfoToParcel(data: PoiInfo, parcel: Parcel)
    requires parcel.Valid()
    modifies parcel
    ensures parcel.Valid() && parcel.Unread() == old(parcel.Unread()) + WritePoiInfo(data, [])
  {
    hide Put, WritePoi, Parcel.Unread, Parcel.Valid;
    PutShifts();
    parcel.Write(Uint64(data.timestamp));
    parcel.Write(Uint32(ToUint32(|data.pois|)));
    var i := 0;
    while i < |data.pois|
      invariant i <= |data.pois| && parcel.Valid()
      invariant parcel.Unread() + WritePois(data.pois[i..], []) == old(parcel.Unread()) + WritePoiInfo(data, [])
    {
      ghost var before := parcel.Unread();
      assert data.pois[i..][1..] == data.pois[i + 1..];
      PoiMovesFront(data.pois[i], WritePois(data.pois[i + 1..], []));
      WritePoiToParcel(data.pois[i], parcel);
      assert before + (WritePoi(data.pois[i], []) + WritePois(data.pois[i + 1..], [])) ==
        parcel.Unread() + WritePois(data.pois[i + 1..], []);
      i := i + 1;
    }
  }

  ghost predicate Holds(location: Location, value: Carried)
    reads location
  {
    location.fields == value && location.additionsMap == MapOnto(map[], value.additions)
  }

  /** Each location is an object of its own. */
  predicate AllDifferent(locations: seq<Location>) {
    forall i, j :: 0 <= i < j < |locations| ==> locations[i] != locations[j]
  }

  lemma ReadLocationsHead(n: nat, s: Stream, before: seq<Carried>)
    ensures n == 0 ==> ReadLocations(n, s) == Read([], s)
    ensures n > 0 ==>
      var first := ReadLocation(s);
      var others := ReadLocations(n - 1, first.rest);
      && before + ReadLocations(n, s).value == (before + [first.value]) + others.value
      && ReadLocations(n, s).rest == others.rest
  {
    hide ReadLocation;
  }

  method ReadLocationObjects(parcel: Parcel, size: nat) returns (locations: seq<Location>)
    requires parcel.Valid()
    modifies parcel
    ensures parcel.Valid()
    ensures
      var r := ReadLocations(size, old(parcel.Unread()));
      && parcel.Unread() == r.rest && |locations| == size
      && forall i :: 0 <= i < size ==> Holds(locations[i], r.value[i])
    ensures AllDifferent(locations) && forall i :: 0 <= i < size ==> fresh(locations[i])
  {
    hide ReadLocation, ReadLocations, MapOnto, Parcel.Unread, Parcel.Valid;
    ghost var all := ReadLocations(size, parcel.Unread());
    ghost var read: seq<Carried> := [];
    locations := [];
    assert read + all.value == all.value;
    for i := 0 to size
      invariant parcel.Valid() && |locations| == |read| == i
      invariant AllDifferent(locations)
      invariant forall j :: 0 <= j < i ==> fresh(locations[j]) && Holds(locations[j], read[j])
      invariant
        var left := ReadLocations(size - i, parcel.Unread());
        read + left.value == all.value && left.rest == all.rest
    {
      ReadLocationsHead(size - i, parcel.Unread(), read);
      var location := new Location();
      location.ReadFromParcel(parcel);
      assert forall additions: seq<string> :: [] + additions == additions;
      read := read + [location.fields];
      locations := locations + [location];
    }
    ReadLocationsHead(0, parcel.Unread(), read);
    assert read + [] == read;
  }

  /** `OnRemoteRequest` of the cached-locations callback: what it hands to `Send`. */
  method ReceiveCachedLocations(parcel: Parcel) returns (delivered: Option<seq<Location>>)
    requires parcel.Valid()
    modifies parcel
    ensures parcel.Valid()
    ensures
      var batch := ReadBatch(old(parcel.Unread()));
      && parcel.Unread() == batch.rest
      && delivered.Some? == batch.value.Some?
      && (delivered.Some? ==>
        && |delivered.value| == |batch.value.value|
        && (forall i :: 0 <= i < |delivered.value| ==> Holds(delivered.value[i], batch.value.value[i]))
        && AllDifferent(delivered.value) && forall i :: 0 <= i < |delivered.value| ==> fresh(delivered.value[i]))
  {
    hide ReadInt32, ReadLocation, ReadLocations, MapOnto, Parcel.Unread, Parcel.Valid;
    var size := parcel.TakeInt32();
    if 0 < size < MAXIMUM_CACHE_LOCATIONS {
      var locations := ReadLocationObjects(parcel, size);
      delivered := Some(locations);
    } else {
      delivered := None;
    }
  }
}
