/**
 The objects that carry a scan record, with their `Marshalling` and `ReadFromParcel` methods, each
 tied to the writer or reader function of its value.
 */
module ScanRecordObjects {
  import opened Integers
  import opened Wrappers
  import opened Ordering
  import opened Parcels
  import opened ScanRecords

  class WifiScanInfo {
    var ssid: string
    var bssid: string
    var rssi: int32
    var frequency: int32
    var timestamp: int64
    var securityType: int32

    function View(): WifiScan
      reads this
    {
      WifiScan(ssid, bssid, rssi, frequency, timestamp, securityType)
    }

    constructor ()
      ensures View() == WifiScan("", "", 0, 0, 0, -1)
    {
      ssid, bssid, rssi, frequency, timestamp, securityType := "", "", 0, 0, 0, -1;
    }

    method ReadFromParcel(parcel: Parcel)
      requires parcel.Valid()
      modifies this, parcel
      ensures parcel.Valid() && Read(View(), parcel.Unread()) == ReadWifi(old(parcel.Unread()))
    {
      hide Parcel.Unread, Parcel.Valid, ReadInt32, ReadInt64, ReadString16;
      var text := parcel.TakeString16();
      ssid := Str16ToStr8(text);
      text := parcel.TakeString16();
      bssid := Str16ToStr8(text);
      rssi := parcel.TakeInt32();
      frequency := parcel.TakeInt32();
      timestamp := parcel.TakeInt64();
      securityType := parcel.TakeInt32();
    }

    method Marshalling(parcel: Parcel)
      requires parcel.Valid()
      modifies parcel
      ensures parcel.Valid() && parcel.Unread() == old(parcel.Unread()) + WriteWifi(View(), [])
    {
      hide Put, Parcel.Unread, Parcel.Valid;
      PutShifts();
      parcel.Write(Text16(Str8ToStr16(ssid)));
      parcel.Write(Text16(Str8ToStr16(bssid)));
      parcel.Write(Int32(rssi));
      parcel.Write(Int32(frequency));
      parcel.Write(Int64(timestamp));
      parcel.Write(Int32(securityType));
    }
  }

  class BluetoothScanInfo {
    var deviceName: string
    var mac: string
    var rssi: int64
    var timestamp: int64

    function View(): BluetoothScan
      reads this
    {
      BluetoothScan(deviceName, mac, rssi, timestamp)
    }

    constructor ()
      ensures View() == BluetoothScan("", "", 0, 0)
    {
      deviceName, mac, rssi, timestamp := "", "", 0, 0;
    }

    method ReadFromParcel(parcel: Parcel)
      requires parcel.Valid()
      modifies this, parcel
      ensures parcel.Valid() && Read(View(), parcel.Unread()) == ReadBluetooth(old(parcel.Unread()))
    {
      hide Parcel.Unread, Parcel.Valid, ReadInt32, ReadInt64, ReadString16;
      var text := parcel.TakeString16();
      deviceName := Str16ToStr8(text);
      text := parcel.TakeString16();
      mac := Str16ToStr8(text);
      rssi := parcel.TakeInt64();
      timestamp := parcel.TakeInt64();
    }

    method Marshalling(parcel: Parcel)
      requires parcel.Valid()
      modifies parcel
      ensures parcel.Valid() && parcel.Unread() == old(parcel.Unread()) + WriteBluetooth(View(), [])
    {
      hide Put, Parcel.Unread, Parcel.Valid;
      PutShifts();
      parcel.Write(Text16(Str8ToStr16(deviceName)));
      parcel.Write(Text16(Str8ToStr16(mac)));
      parcel.Write(Int64(rssi));
      parcel.Write(Int64(timestamp));
    }
  }

  class CellularInfo {
    var timeSinceBoot: int64
    var cellId: int64
    var lac: int32
    var mcc: int32
    var mnc: int32
    var rat: int32
    var signalIntensity: int32
    var arfcn: int32
    var pci: int32
    /** Absent when the pointer to the map is null. */
    var additionsMap: Option<Additions>

    function Ids(): CellIds
      reads this
    {
      CellIds(timeSinceBoot, cellId, lac, mcc, mnc, rat, signalIntensity, arfcn, pci)
    }

    function View(): Cellular
      reads this
    {
      Cellular(Ids(), additionsMap)
    }

    constructor ()
      ensures additionsMap == Some(map[]) && Ids() == CellIds(0, 0, 0, 0, 0, 0, 0, 0, 0)
    {
      timeSinceBoot, cellId, lac, mcc, mnc, rat := 0, 0, 0, 0, 0, 0;
      signalIntensity, arfcn, pci := 0, 0, 0;
      additionsMap := Some(map[]);
    }

    method ReadIdsFromParcel(parcel: Parcel)
      requires parcel.Valid()
      modifies this, parcel
      ensures parcel.Valid() && Read(Ids(), parcel.Unread()) == ReadIds(old(parcel.Unread()))
      ensures additionsMap == old(additionsMap)
    {
      hide Parcel.Unread, Parcel.Valid, ReadInt32, ReadInt64;
      var boot := parcel.TakeInt64();
      var id := parcel.TakeInt64();
      var area := parcel.TakeInt32();
      var country := parcel.TakeInt32();
      var network := parcel.TakeInt32();
      var technology := parcel.TakeInt32();
      var intensity := parcel.TakeInt32();
      var channel := parcel.TakeInt32();
      var physical := parcel.TakeInt32();
      timeSinceBoot, cellId, lac, mcc, mnc := boot, id, area, country, network;
      rat, signalIntensity, arfcn, pci := technology, intensity, channel, physical;
    }

    method ReadFromParcel(parcel: Parcel)
      requires parcel.Valid()
      modifies this, parcel
      ensures parcel.Valid() && Read(View(), parcel.Unread()) == ReadCellOnto(old(additionsMap), old(parcel.Unread()))
    {
      hide ReadIds, Parcel.Unread, Parcel.Valid;
      ReadIdsFromParcel(parcel);
      var size: nat := parcel.TakeUint32();
      size := if size > MAXIMUM_ADDITION_MAP_SIZE then MAXIMUM_ADDITION_MAP_SIZE else size;
      ghost var start := if additionsMap.Some? then additionsMap.value else map[];
      ghost var entries := ReadEntries(size, parcel.Unread(), start);
      ghost var before := additionsMap;
      ghost var ids := Ids();
      for i := 0 to size
        invariant parcel.Valid() && Ids() == ids
        invariant i == 0 ==> additionsMap == before
        invariant i > 0 ==> additionsMap.Some?
        invariant ReadEntries(size - i, parcel.Unread(),
                    if additionsMap.Some? then additionsMap.value else map[]) == entries
      {
        var key := parcel.TakeString();
        var value := parcel.TakeString();
        if additionsMap.None? {
          additionsMap := Some(map[]);
        }
        additionsMap := Some(additionsMap.value[key := value]);
      }
    }

    method Marshalling(parcel: Parcel) returns (ok: bool)
      requires parcel.Valid()
      modifies parcel
      ensures parcel.Valid() && parcel.Unread() == old(parcel.Unread()) + WriteCell(View(), [])
      ensures ok == additionsMap.Some?
    {
      hide WriteIds, WriteEntries, WriteCell, Parcel.Unread, Parcel.Valid;
      CellStream(View());
      WriteIdsToParcel(parcel);
      if additionsMap.None? {
        return false;
      }
      var m := additionsMap.value;
      var size := |m|;
      size := if size > MAXIMUM_ADDITION_MAP_SIZE then MAXIMUM_ADDITION_MAP_SIZE else size;
      parcel.Write(Uint32(size));
      var keys := SortedStrings(m.Keys);
      WriteEntriesToParcel(parcel, keys, m);
      Regroup(old(parcel.Unread()), WriteIds(Ids(), []), [Uint32(size)], WriteEntries(keys, m, []));
      return true;
    }

    method WriteIdsToParcel(parcel: Parcel)
      requires parcel.Valid()
      modifies parcel
      ensures parcel.Valid() && parcel.Unread() == old(parcel.Unread()) + WriteIds(Ids(), [])
    {
      hide Put, Parcel.Unread, Parcel.Valid;
      PutShifts();
      parcel.Write(Int64(timeSinceBoot));
      parcel.Write(Int64(cellId));
      parcel.Write(Int32(lac));
      parcel.Write(Int32(mcc));
      parcel.Write(Int32(mnc));
      parcel.Write(Int32(rat));
      parcel.Write(Int32(signalIntensity));
      parcel.Write(Int32(arfcn));
      parcel.Write(Int32(pci));
    }
  }

  /** Walks the map along its keys. */
  method WriteEntriesToParcel(parcel: Parcel, keys: seq<string>, m: Additions)
    requires parcel.Valid() && forall i :: 0 <= i < |keys| ==> keys[i] in m
    modifies parcel
    ensures parcel.Valid() && parcel.Unread() == old(parcel.Unread()) + WriteEntries(keys, m, [])
  {
    hide Parcel.Unread, Parcel.Valid, WriteEntries;
    var i := 0;
    while i < |keys|
      invariant i <= |keys| && parcel.Valid()
      invariant parcel.Unread() + WriteEntries(keys[i..], m, []) ==
                old(parcel.Unread()) + WriteEntries(keys, m, [])
    {
      EntryStream(keys[i..], m, parcel.Unread());
      assert keys[i..][1..] == keys[i + 1..];
      parcel.Write(Text(keys[i]));
      parcel.Write(Text(m[keys[i]]));
      i := i + 1;
    }
    NoEntries(keys[i..], m);
  }

  class LocatingRequiredData {
    var kind: int32
    var wifiData: WifiScanInfo
    var blueToothData: BluetoothScanInfo
    var slotId: int32
    var campedCellInfo: CellularInfo
    var neighboringCellInfo: seq<CellularInfo>

    function Neighbors(): (r: seq<Cellular>)
      reads this, neighboringCellInfo
      ensures |r| == |neighboringCellInfo|
    {
      Views(neighboringCellInfo)
    }

    function View(): ScanRecord
      reads this, wifiData, blueToothData, campedCellInfo, neighboringCellInfo
    {
      ScanRecord(kind, wifiData.View(), blueToothData.View(), slotId, campedCellInfo.View(), Neighbors())
    }

    constructor ()
      ensures fresh(wifiData) && fresh(blueToothData) && fresh(campedCellInfo) && neighboringCellInfo == []
      ensures kind == 0 && slotId == -1
    {
      kind, slotId, neighboringCellInfo := 0, -1, [];
      wifiData := new WifiScanInfo();
      blueToothData := new BluetoothScanInfo();
      campedCellInfo := new CellularInfo();
    }

    /** Replaces every part by a new object, and adds the neighbours read to those already there. */
    method ReadFromParcel(parcel: Parcel)
      requires parcel.Valid()
      modifies this, parcel
      ensures parcel.Valid()
      ensures
        var r := ReadRecord(old(parcel.Unread()));
        && View() == r.value.(neighbors := old(Neighbors()) + r.value.neighbors)
        && parcel.Unread() == r.rest
    {
      hide ReadWifi, ReadBluetooth, ReadCell, ReadCells, Views, Parcel.Unread, Parcel.Valid;
      ReadParts(parcel);
      var size := parcel.TakeInt32();
      ReadNeighbors(parcel, size);
    }

    /** Everything before the neighbours. */
    method ReadParts(parcel: Parcel)
      requires parcel.Valid()
      modifies this, parcel
      ensures parcel.Valid()
      ensures neighboringCellInfo == old(neighboringCellInfo) && Neighbors() == old(Neighbors())
      ensures fresh(wifiData) && fresh(blueToothData) && fresh(campedCellInfo)
      ensures
        var first := ReadInt32(old(parcel.Unread()));
        var wifi := ReadWifi(first.rest);
        var bluetooth := ReadBluetooth(wifi.rest);
        var slot := ReadInt32(bluetooth.rest);
        && kind == first.value && wifiData.View() == wifi.value && blueToothData.View() == bluetooth.value
        && slotId == slot.value && Read(campedCellInfo.View(), parcel.Unread()) == ReadCell(slot.rest)
    {
      hide Views, ReadWifi, ReadBluetooth, ReadCell, ReadInt32, Parcel.Unread, Parcel.Valid;
      kind := parcel.TakeInt32();
      wifiData := ReadNewWifi(parcel);
      blueToothData := ReadNewBluetooth(parcel);
      slotId := parcel.TakeInt32();
      campedCellInfo := ReadNewCell(parcel);
    }

    method ReadNeighbors(parcel: Parcel, size: int32)
      requires parcel.Valid()
      modifies this`neighboringCellInfo, parcel
      ensures parcel.Valid()
      ensures Read(Neighbors(), parcel.Unread()) ==
        var r := ReadCells(Count(size, CELL_INFO_LIST_MAX_SIZE), old(parcel.Unread()));
        Read(old(Neighbors()) + r.value, r.rest)
      ensures forall c :: c in neighboringCellInfo ==> c in old(neighboringCellInfo) || fresh(c)
    {
      hide ReadCell, ReadCells, Views, Parcel.Unread, Parcel.Valid;
      ghost var known := neighboringCellInfo;
      ghost var before := Neighbors();
      ghost var all := ReadCells(Count(size, CELL_INFO_LIST_MAX_SIZE), parcel.Unread());
      var i: int := 0;
      while i < size && i < CELL_INFO_LIST_MAX_SIZE
        invariant 0 <= i <= Count(size, CELL_INFO_LIST_MAX_SIZE) && parcel.Valid()
        invariant forall c :: c in neighboringCellInfo ==> c in known || fresh(c)
        invariant
          var left := ReadCells(Count(size, CELL_INFO_LIST_MAX_SIZE) - i, parcel.Unread());
          Neighbors() + left.value == before + all.value && left.rest == all.rest
      {
        ReadCellsHead(Count(size, CELL_INFO_LIST_MAX_SIZE) - i, parcel.Unread(), Neighbors());
        var cell := ReadNewCell(parcel);
        ViewsAppend(neighboringCellInfo, cell);
        neighboringCellInfo := neighboringCellInfo + [cell];
        i := i + 1;
      }
      assert i == Count(size, CELL_INFO_LIST_MAX_SIZE);
      ReadCellsHead(0, parcel.Unread(), []);
      assert Neighbors() + [] == Neighbors();
    }

    method Marshalling(parcel: Parcel)
      requires parcel.Valid()
      modifies parcel
      ensures parcel.Valid() && parcel.Unread() == old(parcel.Unread()) + WriteRecord(View(), [])
    {
      hide WriteWifi, WriteBluetooth, WriteCell, WriteCells, WriteRecord, Parcel.Unread, Parcel.Valid;
      parcel.Write(Int32(kind));
      wifiData.Marshalling(parcel);
      blueToothData.Marshalling(parcel);
      parcel.Write(Int32(slotId));
      var ok := campedCellInfo.Marshalling(parcel);
      parcel.Write(Int32(ToInt32(|neighboringCellInfo|)));
      WriteNeighbors(parcel);
      RecordFront(View(), []);
      RegroupMany(old(parcel.Unread()), [Int32(kind)], WriteWifi(wifiData.View(), []),
        WriteBluetooth(blueToothData.View(), []), [Int32(slotId)], WriteCell(campedCellInfo.View(), []),
        [Int32(ToInt32(|neighboringCellInfo|))], WriteCells(Neighbors(), []));
    }

    method WriteNeighbors(parcel: Parcel)
      requires parcel.Valid()
      modifies parcel
      ensures parcel.Valid() && parcel.Unread() == old(parcel.Unread()) + WriteCells(Neighbors(), [])
    {
      hide WriteCell, Parcel.Unread, Parcel.Valid;
      var i := 0;
      while i < |neighboringCellInfo|
        invariant i <= |neighboringCellInfo| && parcel.Valid()
        invariant parcel.Unread() + WriteCells(Neighbors()[i..], []) ==
                  old(parcel.Unread()) + WriteCells(Neighbors(), [])
      {
        ghost var views := Neighbors();
        CellsStream(views[i..], parcel.Unread());
        assert views[i..][1..] == views[i + 1..];
        ViewsAt(neighboringCellInfo, i);
        var ok := neighboringCellInfo[i].Marshalling(parcel);
        i := i + 1;
      }
    }
  }

  function Views(cells: seq<CellularInfo>): (r: seq<Cellular>)
    reads cells
    ensures |r| == |cells|
  {
    if cells == [] then [] else Views(cells[..|cells| - 1]) + [cells[|cells| - 1].View()]
  }

  lemma ViewsAppend(cells: seq<CellularInfo>, c: CellularInfo)
    ensures Views(cells + [c]) == Views(cells) + [c.View()]
  {
    assert (cells + [c])[..|cells|] == cells;
  }

  lemma {:induction false} ViewsAt(cells: seq<CellularInfo>, i: nat)
    requires i < |cells|
    ensures Views(cells)[i] == cells[i].View()
  {
    if i < |cells| - 1 {
      ViewsAt(cells[..|cells| - 1], i);
    }
  }

  // ---------- `Unmarshalling`: a new object filled from the parcel ----------

  method ReadNewWifi(parcel: Parcel) returns (wifi: WifiScanInfo)
    requires parcel.Valid()
    modifies parcel
    ensures fresh(wifi) && parcel.Valid() && Read(wifi.View(), parcel.Unread()) == ReadWifi(old(parcel.Unread()))
  {
    wifi := new WifiScanInfo();
    wifi.ReadFromParcel(parcel);
  }

  method ReadNewBluetooth(parcel: Parcel) returns (bluetooth: BluetoothScanInfo)
    requires parcel.Valid()
    modifies parcel
    ensures fresh(bluetooth) && parcel.Valid()
    ensures Read(bluetooth.View(), parcel.Unread()) == ReadBluetooth(old(parcel.Unread()))
  {
    bluetooth := new BluetoothScanInfo();
    bluetooth.ReadFromParcel(parcel);
  }

  method ReadNewCell(parcel: Parcel) returns (cell: CellularInfo)
    requires parcel.Valid()
    modifies parcel
    ensures fresh(cell) && parcel.Valid() && Read(cell.View(), parcel.Unread()) == ReadCell(old(parcel.Unread()))
  {
    cell := new CellularInfo();
    cell.ReadFromParcel(parcel);
  }

  method ReadNewRecord(parcel: Parcel) returns (data: LocatingRequiredData)
    requires parcel.Valid()
    modifies parcel
    ensures fresh(data) && parcel.Valid() && Read(data.View(), parcel.Unread()) == ReadRecord(old(parcel.Unread()))
  {
    hide ReadRecord, Parcel.Unread, Parcel.Valid;
    data := new LocatingRequiredData();
    ghost var r := ReadRecord(parcel.Unread());
    assert data.Neighbors() + r.value.neighbors == r.value.neighbors;
    data.ReadFromParcel(parcel);
  }
}
