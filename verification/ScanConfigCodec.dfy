/**
 The codec of a scan configuration.  Writer and reader both stop at 1000 BSSIDs.
 */
module ScanConfigCodec {
  import opened Integers
  import opened Parcels

  const INPUT_WIFI_LIST_MAX_SIZE := 1000
  const DEFAULT_TIMEOUT_30S := 30000

  datatype ScanConfig = ScanConfig(kind: int32, needStartScan: bool, scanIntervalMs: int32, scanTimeoutMs: int32,
    fixNumber: int32, isWlanMatchCalled: bool, rssiThreshold: int32, slotId: int32,
    arfcnArray: seq<int32>, plmnParamArray: seq<int32>, wlanBssidArray: seq<string>)

  function WriteTexts(texts: seq<string>, s: Stream): Stream {
    if texts == [] then s else Put(Text(texts[0]), WriteTexts(texts[1..], s))
  }

  function ReadTexts(n: nat, s: Stream): (r: Read<seq<string>>)
    ensures |r.value| == n
  {
    if n == 0 then Read([], s)
    else
      var first := ReadString(s);
      var others := ReadTexts(n - 1, first.rest);
      Read([first.value] + others.value, others.rest)
  }

  function WriteBssids(bssids: seq<string>, s: Stream): Stream {
    var n := Capped(|bssids|, INPUT_WIFI_LIST_MAX_SIZE);
    Put(Int32(n), WriteTexts(bssids[..n], s))
  }

  function WriteSettings(c: ScanConfig, s: Stream): Stream {
    Put(Int32(c.kind), Put(Boolean(c.needStartScan), Put(Int32(c.scanIntervalMs), Put(Int32(c.scanTimeoutMs),
      Put(Int32(c.fixNumber), Put(Boolean(c.isWlanMatchCalled), Put(Int32(c.rssiThreshold), Put(Int32(c.slotId),
      Put(Int32Vector(c.arfcnArray), Put(Int32Vector(c.plmnParamArray), s))))))))))
  }

  function WriteConfig(c: ScanConfig, s: Stream): Stream {
    WriteSettings(c, WriteBssids(c.wlanBssidArray, s))
  }

  function ReadConfig(s: Stream): Read<ScanConfig> {
    var kind := ReadInt32(s);
    var needStartScan := ReadBool(kind.rest);
    var interval := ReadInt32(needStartScan.rest);
    var timeout := ReadInt32(interval.rest);
    var fixNumber := ReadInt32(timeout.rest);
    var matchCalled := ReadBool(fixNumber.rest);
    var threshold := ReadInt32(matchCalled.rest);
    var slotId := ReadInt32(threshold.rest);
    var arfcn := ReadInt32Vector(slotId.rest);
    var plmn := ReadInt32Vector(arfcn.rest);
    var size := ReadInt32(plmn.rest);
    var bssids := ReadTexts(Count(size.value, INPUT_WIFI_LIST_MAX_SIZE), size.rest);
    Read(ScanConfig(kind.value, needStartScan.value, interval.value, timeout.value, fixNumber.value,
      matchCalled.value, threshold.value, slotId.value, arfcn.value, plmn.value, bssids.value), bssids.rest)
  }

  /** The order of the settings on the wire. */
  lemma SettingsLayout(c: ScanConfig)
    ensures WriteSettings(c, []) == [
      Int32(c.kind), Boolean(c.needStartScan), Int32(c.scanIntervalMs), Int32(c.scanTimeoutMs), Int32(c.fixNumber),
      Boolean(c.isWlanMatchCalled), Int32(c.rssiThreshold), Int32(c.slotId), Int32Vector(c.arfcnArray),
      Int32Vector(c.plmnParamArray)]
  {
  }

  lemma {:induction false} TextsAreReadBack(texts: seq<string>, s: Stream)
    ensures ReadTexts(|texts|, WriteTexts(texts, s)) == Read(texts, s)
  {
    hide Put, ReadString;
    if texts == [] {
    } else {
      TextIsReadBack(texts[0], WriteTexts(texts[1..], s));
      TextsAreReadBack(texts[1..], s);
      assert texts == [texts[0]] + texts[1..];
    }
  }

  lemma TextIsReadBack(text: string, s: Stream)
    ensures ReadString(Put(Text(text), s)) == Read(text, s)
  {
    hide Put, ReadString;
    PutIsReadBack();
  }

  /** The configuration with the BSSIDs that are written. */
  function Trimmed(c: ScanConfig): ScanConfig {
    c.(wlanBssidArray := c.wlanBssidArray[..Capped(|c.wlanBssidArray|, INPUT_WIFI_LIST_MAX_SIZE)])
  }

  /** A configuration of any size comes back with its BSSIDs cut to the first 1000, and exactly what
      was written is consumed. */
  lemma ConfigIsReadBack(c: ScanConfig, s: Stream)
    ensures ReadConfig(WriteConfig(c, s)) == Read(Trimmed(c), s)
  {
    hide Put, ReadInt32, ReadBool, ReadInt32Vector, ReadTexts, WriteTexts;
    PutIsReadBack();
    TextsAreReadBack(c.wlanBssidArray[..Capped(|c.wlanBssidArray|, INPUT_WIFI_LIST_MAX_SIZE)], s);
  }

  /** A second trip changes nothing, whatever stream the configuration was first read from. */
  lemma ReadConfigIsStable(s: Stream, t: Stream)
    ensures var c := ReadConfig(s).value; ReadConfig(WriteConfig(c, t)) == Read(c, t)
  {
    hide ReadConfig, WriteConfig;
    var c := ReadConfig(s).value;
    ConfigIsReadBack(c, t);
    AtMost1000Bssids(s);
    assert c.wlanBssidArray[..|c.wlanBssidArray|] == c.wlanBssidArray;
  }

  lemma AtMost1000Bssids(s: Stream)
    ensures |ReadConfig(s).value.wlanBssidArray| <= INPUT_WIFI_LIST_MAX_SIZE
  {
  }

  // ---------- the object ----------

  lemma ReadTextsHead(n: nat, s: Stream, before: seq<string>)
    ensures n == 0 ==> ReadTexts(n, s) == Read([], s)
    ensures n > 0 ==>
      var first := ReadString(s);
      var others := ReadTexts(n - 1, first.rest);
      && before + ReadTexts(n, s).value == (before + [first.value]) + others.value
      && ReadTexts(n, s).rest == others.rest
  {
  }

  class LocatingRequiredDataConfig {
    var fields: ScanConfig

    constructor ()
      ensures fields == ScanConfig(0, false, 0, DEFAULT_TIMEOUT_30S, 0, false, 0, -1, [], [], [])
    {
      fields := ScanConfig(0, false, 0, DEFAULT_TIMEOUT_30S, 0, false, 0, -1, [], [], []);
    }

    /** BSSIDs that the object holds already stay, and those read are appended to them. */
    method ReadFromParcel(parcel: Parcel)
      requires parcel.Valid()
      modifies this, parcel
      ensures parcel.Valid()
      ensures
        var r := ReadConfig(old(parcel.Unread()));
        && fields == r.value.(wlanBssidArray := old(fields.wlanBssidArray) + r.value.wlanBssidArray)
        && parcel.Unread() == r.rest
    {
      hide ReadInt32, ReadBool, ReadInt32Vector, ReadString, ReadTexts, Parcel.Unread, Parcel.Valid;
      var kind := parcel.TakeInt32();
      var needStartScan := parcel.TakeBool();
      var interval := parcel.TakeInt32();
      var timeout := parcel.TakeInt32();
      var fixNumber := parcel.TakeInt32();
      var matchCalled := parcel.TakeBool();
      var threshold := parcel.TakeInt32();
      var slotId := parcel.TakeInt32();
      var arfcn := parcel.TakeInt32Vector();
      var plmn := parcel.TakeInt32Vector();
      var wlanArraySize := parcel.TakeInt32();
      var bssids := ReadBssids(wlanArraySize, parcel);
      fields := ScanConfig(kind, needStartScan, interval, timeout, fixNumber, matchCalled, threshold, slotId,
        arfcn, plmn, fields.wlanBssidArray + bssids);
    }

    method Marshalling(parcel: Parcel)
      requires parcel.Valid()
      modifies parcel
      ensures parcel.Valid() && parcel.Unread() == old(parcel.Unread()) + WriteConfig(fields, [])
    {
      hide WriteSettings, WriteBssids, Parcel.Unread, Parcel.Valid;
      SettingsMoveFront(fields, WriteBssids(fields.wlanBssidArray, []));
      WriteSettingsToParcel(fields, parcel);
      MarshallingWlanBssidArray(parcel, fields.wlanBssidArray);
    }
  }

  lemma SettingsMoveFront(c: ScanConfig, s: Stream)
    ensures WriteSettings(c, s) == WriteSettings(c, []) + s
  {
    hide Put;
    PutMovesFront();
    assert [] + s == s;
  }

  method WriteSettingsToParcel(f: ScanConfig, parcel: Parcel)
    requires parcel.Valid()
    modifies parcel
    ensures parcel.Valid() && parcel.Unread() == old(parcel.Unread()) + WriteSettings(f, [])
  {
    hide Put, Parcel.Unread, Parcel.Valid;
    PutShifts();
    parcel.Write(Int32(f.kind));
    parcel.Write(Boolean(f.needStartScan));
    parcel.Write(Int32(f.scanIntervalMs));
    parcel.Write(Int32(f.scanTimeoutMs));
    parcel.Write(Int32(f.fixNumber));
    parcel.Write(Boolean(f.isWlanMatchCalled));
    parcel.Write(Int32(f.rssiThreshold));
    parcel.Write(Int32(f.slotId));
    parcel.Write(Int32Vector(f.arfcnArray));
    parcel.Write(Int32Vector(f.plmnParamArray));
  }

  method ReadBssids(size: int32, parcel: Parcel) returns (bssids: seq<string>)
    requires parcel.Valid()
    modifies parcel
    ensures parcel.Valid() &&
      Read(bssids, parcel.Unread()) == ReadTexts(Count(size, INPUT_WIFI_LIST_MAX_SIZE), old(parcel.Unread()))
  {
    hide ReadString, ReadTexts, Parcel.Unread, Parcel.Valid;
    var wlanArraySize := size;
    if wlanArraySize > INPUT_WIFI_LIST_MAX_SIZE {
      wlanArraySize := INPUT_WIFI_LIST_MAX_SIZE;
    }
    ghost var n := Count(size, INPUT_WIFI_LIST_MAX_SIZE);
    ghost var all := ReadTexts(n, parcel.Unread());
    bssids := [];
    assert bssids + all.value == all.value;
    var i := 0;
    while i < wlanArraySize
      invariant 0 <= i <= n && parcel.Valid()
      invariant
        var left := ReadTexts(n - i, parcel.Unread());
        bssids + left.value == all.value && left.rest == all.rest
    {
      ReadTextsHead(n - i, parcel.Unread(), bssids);
      var wlanBssid := parcel.TakeString();
      bssids := bssids + [wlanBssid];
      i := i + 1;
    }
    assert i == n;
    ReadTextsHead(0, parcel.Unread(), bssids);
    assert bssids + [] == bssids;
  }

  method MarshallingWlanBssidArray(parcel: Parcel, wlanBssidArray: seq<string>)
    requires parcel.Valid()
    modifies parcel
    ensures parcel.Valid() && parcel.Unread() == old(parcel.Unread()) + WriteBssids(wlanBssidArray, [])
  {
    hide Put, Parcel.Unread, Parcel.Valid;
    PutShifts();
    var arraySize := |wlanBssidArray|;
    if arraySize > INPUT_WIFI_LIST_MAX_SIZE {
      arraySize := INPUT_WIFI_LIST_MAX_SIZE;
    }
    ghost var kept := wlanBssidArray[..arraySize];
    ghost var before := parcel.Unread();
    parcel.Write(Int32(arraySize));
    var i := 0;
    while i < arraySize
      invariant 0 <= i <= arraySize && parcel.Valid()
      invariant parcel.Unread() + WriteTexts(kept[i..], []) == before + [Int32(arraySize)] + WriteTexts(kept, [])
    {
      assert kept[i..][1..] == kept[i + 1..];
      parcel.Write(Text(wlanBssidArray[i]));
      i := i + 1;
    }
  }
}
