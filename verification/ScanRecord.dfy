/**
 The scan record sent with location requests: a Wi-Fi result, a Bluetooth result, the camped cell
 and the neighbouring cells.  Writers and readers of each part, and when reading undoes writing.
 */
module ScanRecords {
  import opened Integers
  import opened Wrappers
  import opened Ordering
  import opened Parcels

  const CELL_INFO_LIST_MAX_SIZE := 1000
  const MAXIMUM_ADDITION_MAP_SIZE := 200

  // ---------- values and their streams ----------

  datatype WifiScan = WifiScan(ssid: string, bssid: string, rssi: int32, frequency: int32,
    timestamp: int64, securityType: int32)

  datatype BluetoothScan = BluetoothScan(deviceName: string, mac: string, rssi: int64, timestamp: int64)

  datatype CellIds = CellIds(timeSinceBoot: int64, cellId: int64, lac: int32, mcc: int32, mnc: int32,
    rat: int32, signalIntensity: int32, arfcn: int32, pci: int32)

  type Additions = map<string, string>

  /** A cell; its additions map is absent when the pointer to it is null. */
  datatype Cellular = Cellular(ids: CellIds, additions: Option<Additions>)

  datatype ScanRecord = ScanRecord(kind: int32, wifi: WifiScan, bluetooth: BluetoothScan, slotId: int32,
    camped: Cellular, neighbors: seq<Cellular>)

  function WriteWifi(w: WifiScan, s: Stream): Stream {
    Put(Text16(Str8ToStr16(w.ssid)), Put(Text16(Str8ToStr16(w.bssid)), Put(Int32(w.rssi),
      Put(Int32(w.frequency), Put(Int64(w.timestamp), Put(Int32(w.securityType), s))))))
  }

  function ReadWifi(s: Stream): Read<WifiScan> {
    var ssid := ReadString16(s);
    var bssid := ReadString16(ssid.rest);
    var rssi := ReadInt32(bssid.rest);
    var frequency := ReadInt32(rssi.rest);
    var timestamp := ReadInt64(frequency.rest);
    var securityType := ReadInt32(timestamp.rest);
    Read(WifiScan(Str16ToStr8(ssid.value), Str16ToStr8(bssid.value), rssi.value, frequency.value,
      timestamp.value, securityType.value), securityType.rest)
  }

  function WriteBluetooth(b: BluetoothScan, s: Stream): Stream {
    Put(Text16(Str8ToStr16(b.deviceName)),
      Put(Text16(Str8ToStr16(b.mac)), Put(Int64(b.rssi), Put(Int64(b.timestamp), s))))
  }

  function ReadBluetooth(s: Stream): Read<BluetoothScan> {
    var deviceName := ReadString16(s);
    var mac := ReadString16(deviceName.rest);
    var rssi := ReadInt64(mac.rest);
    var timestamp := ReadInt64(rssi.rest);
    Read(BluetoothScan(Str16ToStr8(deviceName.value), Str16ToStr8(mac.value), rssi.value, timestamp.value),
      timestamp.rest)
  }

  function WriteIds(c: CellIds, s: Stream): Stream {
    Put(Int64(c.timeSinceBoot), Put(Int64(c.cellId), Put(Int32(c.lac), Put(Int32(c.mcc), Put(Int32(c.mnc),
      Put(Int32(c.rat), Put(Int32(c.signalIntensity), Put(Int32(c.arfcn), Put(Int32(c.pci), s)))))))))
  }

  function ReadIds(s: Stream): Read<CellIds> {
    var timeSinceBoot := ReadInt64(s);
    var cellId := ReadInt64(timeSinceBoot.rest);
    var lac := ReadInt32(cellId.rest);
    var mcc := ReadInt32(lac.rest);
    var mnc := ReadInt32(mcc.rest);
    var rat := ReadInt32(mnc.rest);
    var signalIntensity := ReadInt32(rat.rest);
    var arfcn := ReadInt32(signalIntensity.rest);
    var pci := ReadInt32(arfcn.rest);
    Read(CellIds(timeSinceBoot.value, cellId.value, lac.value, mcc.value, mnc.value, rat.value,
      signalIntensity.value, arfcn.value, pci.value), pci.rest)
  }

  /** Keys and values, one pair after the other. */
  function WriteEntries(keys: seq<string>, m: Additions, s: Stream): Stream
    requires forall i :: 0 <= i < |keys| ==> keys[i] in m
  {
    if keys == [] then s else Put(Text(keys[0]), Put(Text(m[keys[0]]), WriteEntries(keys[1..], m, s)))
  }

  function ReadEntries(n: nat, s: Stream, m: Additions): Read<Additions> {
    if n == 0 then Read(m, s)
    else
      var key := ReadString(s);
      var value := ReadString(key.rest);
      ReadEntries(n - 1, value.rest, m[key.value := value.value])
  }

  /** The size written is cut to the cap, the entries are not. */
  function WriteCell(c: Cellular, s: Stream): Stream {
    match c.additions
    case None => WriteIds(c.ids, s)
    case Some(m) =>
      WriteIds(c.ids, Put(Uint32(Capped(|m|, MAXIMUM_ADDITION_MAP_SIZE)), WriteEntries(SortedStrings(m.Keys), m, s)))
  }

  /** Reading into a cell whose map holds `additions`; entries read are added to it. */
  function ReadCellOnto(additions: Option<Additions>, s: Stream): Read<Cellular> {
    var ids := ReadIds(s);
    var count := ReadUint32(ids.rest);
    var size := Capped(count.value, MAXIMUM_ADDITION_MAP_SIZE);
    if size == 0 then
      Read(Cellular(ids.value, additions), count.rest)
    else
      var entries := ReadEntries(size, count.rest, if additions.Some? then additions.value else map[]);
      Read(Cellular(ids.value, Some(entries.value)), entries.rest)
  }

  /** Reading a new cell, whose map starts empty. */
  function ReadCell(s: Stream): Read<Cellular> {
    ReadCellOnto(Some(map[]), s)
  }

  function WriteCells(cs: seq<Cellular>, s: Stream): Stream {
    if cs == [] then s else WriteCell(cs[0], WriteCells(cs[1..], s))
  }

  function ReadCells(n: nat, s: Stream): (r: Read<seq<Cellular>>)
    ensures |r.value| == n
  {
    if n == 0 then Read([], s)
    else
      var first := ReadCell(s);
      var others := ReadCells(n - 1, first.rest);
      Read([first.value] + others.value, others.rest)
  }

  /** What follows the slot id. */
  function WriteCellPart(r: ScanRecord, s: Stream): Stream {
    WriteCell(r.camped, Put(Int32(ToInt32(|r.neighbors|)), WriteCells(r.neighbors, s)))
  }

  lemma ReadCellsHead(n: nat, s: Stream, before: seq<Cellular>)
    ensures n == 0 ==> ReadCells(n, s) == Read([], s)
    ensures n > 0 ==>
      var first := ReadCell(s);
      var others := ReadCells(n - 1, first.rest);
      && before + ReadCells(n, s).value == (before + [first.value]) + others.value
      && ReadCells(n, s).rest == others.rest
  {
    hide ReadCell;
  }

  function WriteRecord(r: ScanRecord, s: Stream): Stream {
    Put(Int32(r.kind), WriteWifi(r.wifi, WriteBluetooth(r.bluetooth, Put(Int32(r.slotId), WriteCellPart(r, s)))))
  }

  function ReadRecord(s: Stream): Read<ScanRecord> {
    var kind := ReadInt32(s);
    var wifi := ReadWifi(kind.rest);
    var bluetooth := ReadBluetooth(wifi.rest);
    var slotId := ReadInt32(bluetooth.rest);
    var camped := ReadCell(slotId.rest);
    var size := ReadInt32(camped.rest);
    var neighbors := ReadCells(Count(size.value, CELL_INFO_LIST_MAX_SIZE), size.rest);
    Read(ScanRecord(kind.value, wifi.value, bluetooth.value, slotId.value, camped.value, neighbors.value),
      neighbors.rest)
  }

  // ---------- the order on the wire ----------

  lemma WifiLayout(w: WifiScan)
    ensures WriteWifi(w, []) == [
      Text16(Str8ToStr16(w.ssid)), Text16(Str8ToStr16(w.bssid)), Int32(w.rssi), Int32(w.frequency),
      Int64(w.timestamp), Int32(w.securityType)]
  {
  }

  lemma BluetoothLayout(b: BluetoothScan)
    ensures WriteBluetooth(b, []) == [
      Text16(Str8ToStr16(b.deviceName)), Text16(Str8ToStr16(b.mac)), Int64(b.rssi), Int64(b.timestamp)]
  {
  }

  lemma IdsLayout(c: CellIds)
    ensures WriteIds(c, []) == [
      Int64(c.timeSinceBoot), Int64(c.cellId), Int32(c.lac), Int32(c.mcc), Int32(c.mnc), Int32(c.rat),
      Int32(c.signalIntensity), Int32(c.arfcn), Int32(c.pci)]
  {
  }

  // ---------- the additions map ----------

  /** The map cut to some of its keys. */
  function Restrict(m: Additions, keys: seq<string>): Additions {
    map k | k in m && k in keys :: m[k]
  }

  function AddAll(start: Additions, keys: seq<string>, m: Additions): Additions
    requires forall i :: 0 <= i < |keys| ==> keys[i] in m
    decreases |keys|
  {
    if keys == [] then start else AddAll(start[keys[0] := m[keys[0]]], keys[1..], m)
  }

  lemma {:induction false} AddAllIsRestrict(start: Additions, keys: seq<string>, m: Additions)
    requires forall i :: 0 <= i < |keys| ==> keys[i] in m
    ensures AddAll(start, keys, m) == start + Restrict(m, keys)
    decreases |keys|
  {
    if keys != [] {
      var k := keys[0];
      AddAllIsRestrict(start[k := m[k]], keys[1..], m);
      assert keys == [k] + keys[1..];
      RestrictCons(start, k, keys[1..], m);
    } else {
      assert Restrict(m, keys) == map[];
    }
  }

  lemma RestrictCons(start: Additions, k: string, keys: seq<string>, m: Additions)
    requires k in m
    ensures start[k := m[k]] + Restrict(m, keys) == start + Restrict(m, [k] + keys)
  {
    forall j
      ensures j in [k] + keys <==> j == k || j in keys
    {
    }
  }

  lemma {:induction false} EntriesAreReadBack(
      read: seq<string>, left: seq<string>, m: Additions, start: Additions, s: Stream)
    requires forall i :: 0 <= i < |read| ==> read[i] in m
    requires forall i :: 0 <= i < |left| ==> left[i] in m
    ensures ReadEntries(|read|, WriteEntries(read + left, m, s), start) ==
      Read(AddAll(start, read, m), WriteEntries(left, m, s))
  {
    if read == [] {
      assert read + left == left;
    } else {
      var k := read[0];
      var inner := WriteEntries(read[1..] + left, m, s);
      assert (read + left)[1..] == read[1..] + left;
      EntriesAreReadBack(read[1..], left, m, start[k := m[k]], s);
      OneEntryIsReadBack(|read|, k, m[k], inner, start);
    }
  }

  lemma OneEntryIsReadBack(n: nat, key: string, value: string, s: Stream, start: Additions)
    requires n > 0
    ensures ReadEntries(n, Put(Text(key), Put(Text(value), s)), start) == ReadEntries(n - 1, s, start[key := value])
  {
    hide Put, ReadString;
    PutIsReadBack();
  }

  /** Two texts in front of a stream that begins with `n` texts. */
  lemma PutTwoTexts(a: string, b: string, n: nat, s: Stream)
    requires n <= |s| && forall i :: 0 <= i < n ==> s[i].Text?
    ensures |Put(Text(a), Put(Text(b), s))| == 2 + |s|
    ensures forall i :: 0 <= i < n + 2 ==> Put(Text(a), Put(Text(b), s))[i].Text?
    ensures Put(Text(a), Put(Text(b), s))[n + 2..] == s[n..]
  {
  }

  /** Two texts for each key, and then what follows. */
  lemma {:induction false} EntriesLength(keys: seq<string>, m: Additions, s: Stream)
    requires forall i :: 0 <= i < |keys| ==> keys[i] in m
    ensures |WriteEntries(keys, m, s)| == 2 * |keys| + |s|
    ensures forall i :: 0 <= i < 2 * |keys| ==> WriteEntries(keys, m, s)[i].Text?
    ensures WriteEntries(keys, m, s)[2 * |keys|..] == s
  {
    hide Put;
    if keys == [] {
    } else {
      EntriesLength(keys[1..], m, s);
      PutTwoTexts(keys[0], m[keys[0]], 2 * |keys[1..]|, WriteEntries(keys[1..], m, s));
    }
  }

  // ---------- cells ----------

  /** A cell that survives the trip: its map is there and no larger than the cap. */
  predicate CellFits(c: Cellular) {
    c.additions.Some? && |c.additions.value| <= MAXIMUM_ADDITION_MAP_SIZE
  }

  lemma IdsAreReadBack(c: CellIds, s: Stream)
    ensures ReadIds(WriteIds(c, s)) == Read(c, s)
  {
    hide Put, ReadInt32, ReadInt64;
    PutIsReadBack();
  }

  lemma CellFrame(start: Option<Additions>, ids: CellIds, n: uint32, s: Stream)
    ensures
      var held: Additions := if start.Some? then start.value else map[];
      var entries := ReadEntries(Capped(n, MAXIMUM_ADDITION_MAP_SIZE), s, held);
      ReadCellOnto(start, WriteIds(ids, Put(Uint32(n), s))) ==
        Read(Cellular(ids, if n == 0 then start else Some(entries.value)), entries.rest)
  {
    hide Put, ReadUint32, ReadIds, WriteIds;
    PutIsReadBack();
    IdsAreReadBack(ids, Put(Uint32(n), s));
  }

  lemma RestrictToAllKeys(m: Additions, keys: seq<string>)
    requires forall k :: k in m ==> k in keys
    ensures Restrict(m, keys) == m
  {
  }

  /** The keys a reader keeps, and those it leaves in the stream. */
  function KeptKeys(m: Additions): (keys: seq<string>)
    ensures forall i :: 0 <= i < |keys| ==> keys[i] in m
    ensures |keys| == Capped(|m|, MAXIMUM_ADDITION_MAP_SIZE)
  {
    SortedStrings(m.Keys)[..Capped(|m|, MAXIMUM_ADDITION_MAP_SIZE)]
  }

  function LeftKeys(m: Additions): (keys: seq<string>)
    ensures forall i :: 0 <= i < |keys| ==> keys[i] in m
    ensures |keys| == |m| - Capped(|m|, MAXIMUM_ADDITION_MAP_SIZE)
  {
    SortedStrings(m.Keys)[Capped(|m|, MAXIMUM_ADDITION_MAP_SIZE)..]
  }

  lemma KeysSplit(m: Additions)
    ensures KeptKeys(m) + LeftKeys(m) == SortedStrings(m.Keys)
  {
  }

  lemma EmptyPlus(m: Additions)
    ensures map[] + m == m
  {
  }

  /** Read into an object that is there already, the entries are put on top of those it has; a missing map is
      made when there is an entry. */
  lemma CellIsReadOnto(start: Option<Additions>, c: Cellular, s: Stream)
    requires c.additions.Some?
    ensures
      var m := c.additions.value;
      var held: Additions := if start.Some? then start.value else map[];
      ReadCellOnto(start, WriteCell(c, s)) == Read(
        c.(additions := if m == map[] then start else Some(held + Restrict(m, KeptKeys(m)))),
        WriteEntries(LeftKeys(m), m, s))
  {
    hide ReadIds, WriteIds, ReadEntries, AddAll;
    var m := c.additions.value;
    var held: Additions := if start.Some? then start.value else map[];
    var read, left := KeptKeys(m), LeftKeys(m);
    KeysSplit(m);
    CellFrame(start, c.ids, Capped(|m|, MAXIMUM_ADDITION_MAP_SIZE), WriteEntries(read + left, m, s));
    EntriesAreReadBack(read, left, m, held, s);
    AddAllIsRestrict(held, read, m);
  }

  /** A lone cell comes back with its first 200 additions in key order; the others stay unread. */
  lemma CellIsReadBack(c: Cellular, s: Stream)
    requires c.additions.Some?
    ensures
      var m := c.additions.value;
      && ReadCell(WriteCell(c, s)) ==
         Read(c.(additions := Some(Restrict(m, KeptKeys(m)))), WriteEntries(LeftKeys(m), m, s))
      && |WriteEntries(LeftKeys(m), m, s)| == 2 * (|m| - Capped(|m|, MAXIMUM_ADDITION_MAP_SIZE)) + |s|
      && (forall i :: 0 <= i < 2 * |LeftKeys(m)| ==> WriteEntries(LeftKeys(m), m, s)[i].Text?)
      && WriteEntries(LeftKeys(m), m, s)[2 * |LeftKeys(m)|..] == s
  {
    hide ReadCellOnto, WriteEntries, KeptKeys, LeftKeys;
    var m := c.additions.value;
    CellIsReadOnto(Some(map[]), c, s);
    EmptyPlus(Restrict(m, KeptKeys(m)));
    assert m == map[] ==> Restrict(m, KeptKeys(m)) == map[];
    EntriesLength(LeftKeys(m), m, s);
  }

  lemma FittingCellIsReadBack(c: Cellular, s: Stream)
    requires CellFits(c)
    ensures ReadCell(WriteCell(c, s)) == Read(c, s)
  {
    hide ReadCell, WriteCell, Restrict;
    var m := c.additions.value;
    CellIsReadBack(c, s);
    assert KeptKeys(m) == SortedStrings(m.Keys);
    RestrictToAllKeys(m, KeptKeys(m));
    assert LeftKeys(m) == [];
  }

  /** In front of leftover text a new cell reads nothing. */
  lemma TextStopsCells(n: nat, s: Stream)
    requires s != [] && s[0].Text?
    ensures ReadCells(n, s).rest == s
  {
  }

  lemma {:induction false} CellsLength(cs: seq<Cellular>, s: Stream)
    ensures |WriteCells(cs, s)| >= |s|
  {
    if cs == [] {
    } else {
      CellsLength(cs[1..], s);
      CellLength(cs[0], WriteCells(cs[1..], s));
    }
  }

  lemma CellLength(c: Cellular, s: Stream)
    ensures |WriteCell(c, s)| >= |s|
  {
    if c.additions.Some? {
      EntriesLength(SortedStrings(c.additions.value.Keys), c.additions.value, s);
    }
  }

  /** A cell that does not fit spoils its own value or what follows it. */
  lemma MisfitIsLost(c: Cellular, s: Stream)
    requires !CellFits(c)
    ensures
      var r := ReadCell(WriteCell(c, s));
      r.value != c || (|r.rest| > |s| && r.rest[0].Text?)
  {
    if c.additions.Some? {
      var m := c.additions.value;
      CellIsReadBack(c, s);
    }
  }

  lemma {:induction false} CellsRoundTripExactlyWhenTheyFit(cs: seq<Cellular>, s: Stream)
    ensures ReadCells(|cs|, WriteCells(cs, s)) == Read(cs, s) <==> forall i :: 0 <= i < |cs| ==> CellFits(cs[i])
  {
    hide ReadCell, WriteCell;
    if cs == [] {
    } else {
      var inner := WriteCells(cs[1..], s);
      var first := ReadCell(WriteCell(cs[0], inner));
      var others := ReadCells(|cs| - 1, first.rest);
      assert cs == [cs[0]] + cs[1..];
      if CellFits(cs[0]) {
        FittingCellIsReadBack(cs[0], inner);
        CellsRoundTripExactlyWhenTheyFit(cs[1..], s);
        assert ([first.value] + others.value)[1..] == others.value;
      } else {
        MisfitIsLost(cs[0], inner);
        assert ([first.value] + others.value)[0] == first.value;
        if first.value == cs[0] {
          TextStopsCells(|cs| - 1, first.rest);
          CellsLength(cs[1..], s);
        }
      }
    }
  }

  // ---------- the record ----------

  predicate RecordFits(r: ScanRecord) {
    && CellFits(r.camped)
    && |r.neighbors| <= CELL_INFO_LIST_MAX_SIZE
    && forall i :: 0 <= i < |r.neighbors| ==> CellFits(r.neighbors[i])
  }

  lemma HeadIsReadBack(r: ScanRecord, s: Stream)
    ensures
      var camped := ReadCell(WriteCellPart(r, s));
      var size := ReadInt32(camped.rest);
      var neighbors := ReadCells(Count(size.value, CELL_INFO_LIST_MAX_SIZE), size.rest);
      ReadRecord(WriteRecord(r, s)) == Read(r.(camped := camped.value, neighbors := neighbors.value), neighbors.rest)
  {
    hide Put, ReadInt32, ReadCell, WriteCellPart, ReadCells, ReadWifi, WriteWifi, ReadBluetooth, WriteBluetooth;
    PutIsReadBack();
    var cells := WriteCellPart(r, s);
    var bluetooth := WriteBluetooth(r.bluetooth, Put(Int32(r.slotId), cells));
    BluetoothIsReadBack(r.bluetooth, Put(Int32(r.slotId), cells));
    WifiIsReadBack(r.wifi, bluetooth);
  }

  lemma WifiIsReadBack(w: WifiScan, s: Stream)
    ensures ReadWifi(WriteWifi(w, s)) == Read(w, s)
  {
    hide Put, ReadString16, ReadInt32, ReadInt64;
    PutIsReadBack();
  }

  lemma BluetoothIsReadBack(b: BluetoothScan, s: Stream)
    ensures ReadBluetooth(WriteBluetooth(b, s)) == Read(b, s)
  {
    hide Put, ReadString16, ReadInt64;
    PutIsReadBack();
  }

  /** A written record is read back whole, with whatever follows it left untouched, exactly when every
      cell has a map of at most 200 additions and there are at most 1000 neighbours. */
  lemma RecordRoundTripExactlyWhenItFits(r: ScanRecord, s: Stream)
    ensures ReadRecord(WriteRecord(r, s)) == Read(r, s) <==> RecordFits(r)
  {
    hide ReadCell, WriteCell, WriteRecord, ReadRecord;
    HeadIsReadBack(r, s);
    var cells := WriteCells(r.neighbors, s);
    var after := Put(Int32(ToInt32(|r.neighbors|)), cells);
    var camped := ReadCell(WriteCellPart(r, s));
    if !CellFits(r.camped) {
      MisfitIsLost(r.camped, after);
      CellsLength(r.neighbors, s);
    } else {
      FittingCellIsReadBack(r.camped, after);
      assert ReadInt32(after) == Read(ToInt32(|r.neighbors|), cells);
      if |r.neighbors| <= CELL_INFO_LIST_MAX_SIZE {
        CellsRoundTripExactlyWhenTheyFit(r.neighbors, s);
      }
    }
  }

  lemma {:induction false} CellsAppend(a: seq<Cellular>, b: seq<Cellular>, s: Stream)
    ensures WriteCells(a + b, s) == WriteCells(a, WriteCells(b, s))
  {
    hide WriteCell;
    if a == [] {
      assert a + b == b;
    } else {
      assert (a + b)[1..] == a[1..] + b;
      CellsAppend(a[1..], b, s);
    }
  }

  /** Beyond 1000 neighbours the reader keeps the first 1000 and leaves the others in the stream. */
  lemma ExtraNeighborsStayUnread(r: ScanRecord, s: Stream)
    requires CELL_INFO_LIST_MAX_SIZE < |r.neighbors| < 0x8000_0000
    requires CellFits(r.camped) && forall i :: 0 <= i < CELL_INFO_LIST_MAX_SIZE ==> CellFits(r.neighbors[i])
    ensures ReadRecord(WriteRecord(r, s)) ==
      Read(r.(neighbors := r.neighbors[..CELL_INFO_LIST_MAX_SIZE]),
        WriteCells(r.neighbors[CELL_INFO_LIST_MAX_SIZE..], s))
  {
    hide ReadCell, WriteCell, WriteRecord, ReadRecord, WriteCells;
    HeadIsReadBack(r, s);
    var kept, left := r.neighbors[..CELL_INFO_LIST_MAX_SIZE], r.neighbors[CELL_INFO_LIST_MAX_SIZE..];
    assert kept + left == r.neighbors;
    CellsAppend(kept, left, s);
    FittingCellIsReadBack(r.camped, Put(Int32(ToInt32(|r.neighbors|)), WriteCells(r.neighbors, s)));
    CellsRoundTripExactlyWhenTheyFit(kept, WriteCells(left, s));
  }

  // ---------- what is written does not depend on what follows ----------

  lemma WifiFront(w: WifiScan, s: Stream)
    ensures WriteWifi(w, s) == WriteWifi(w, []) + s
  {
    hide Put;
    PutMovesFront();
    assert [] + s == s;
  }

  lemma BluetoothFront(b: BluetoothScan, s: Stream)
    ensures WriteBluetooth(b, s) == WriteBluetooth(b, []) + s
  {
    hide Put;
    PutMovesFront();
    assert [] + s == s;
  }

  lemma IdsFront(c: CellIds, s: Stream)
    ensures WriteIds(c, s) == WriteIds(c, []) + s
  {
    hide Put;
    PutMovesFront();
    assert [] + s == s;
  }

  lemma {:induction false} EntriesFront(keys: seq<string>, m: Additions, s: Stream)
    requires forall i :: 0 <= i < |keys| ==> keys[i] in m
    ensures WriteEntries(keys, m, s) == WriteEntries(keys, m, []) + s
  {
    hide Put;
    PutMovesFront();
    if keys == [] {
    } else {
      EntriesFront(keys[1..], m, s);
    }
  }

  lemma SizedFront(ids: CellIds, size: Cell, entries: Stream, s: Stream)
    ensures WriteIds(ids, Put(size, entries + s)) == WriteIds(ids, Put(size, entries)) + s
    ensures WriteIds(ids, Put(size, entries)) == WriteIds(ids, []) + [size] + entries
  {
    hide WriteIds;
    PutMovesFront();
    IdsFront(ids, Put(size, entries + s));
    IdsFront(ids, Put(size, entries));
  }

  lemma CellFront(c: Cellular, s: Stream)
    ensures WriteCell(c, s) == WriteCell(c, []) + s
  {
    hide WriteIds, WriteEntries, Put;
    IdsFront(c.ids, s);
    if c.additions.Some? {
      var m := c.additions.value;
      var keys := SortedStrings(m.Keys);
      EntriesFront(keys, m, s);
      SizedFront(c.ids, Uint32(Capped(|m|, MAXIMUM_ADDITION_MAP_SIZE)), WriteEntries(keys, m, []), s);
    }
  }

  /** What a cell writes, part by part. */
  lemma CellStream(c: Cellular)
    ensures c.additions.None? ==> WriteCell(c, []) == WriteIds(c.ids, [])
    ensures c.additions.Some? ==>
      var m := c.additions.value;
      WriteCell(c, []) == WriteIds(c.ids, []) + [Uint32(Capped(|m|, MAXIMUM_ADDITION_MAP_SIZE))] +
        WriteEntries(SortedStrings(m.Keys), m, [])
  {
    hide WriteIds, WriteEntries, Put;
    if c.additions.Some? {
      var m := c.additions.value;
      SizedFront(c.ids, Uint32(Capped(|m|, MAXIMUM_ADDITION_MAP_SIZE)), WriteEntries(SortedStrings(m.Keys), m, []), []);
    }
  }

  lemma EntryStream(keys: seq<string>, m: Additions, before: Stream)
    requires keys != [] && forall i :: 0 <= i < |keys| ==> keys[i] in m
    ensures before + WriteEntries(keys, m, []) ==
      before + [Text(keys[0])] + [Text(m[keys[0]])] + WriteEntries(keys[1..], m, [])
  {
    hide Put;
    PutShifts();
  }

  lemma NoEntries(keys: seq<string>, m: Additions)
    requires keys == []
    ensures WriteEntries(keys, m, []) == []
  {
  }

  lemma CellsStream(cs: seq<Cellular>, before: Stream)
    requires cs != []
    ensures before + WriteCells(cs, []) == before + WriteCell(cs[0], []) + WriteCells(cs[1..], [])
  {
    hide WriteCell;
    CellFront(cs[0], WriteCells(cs[1..], []));
  }

  lemma {:induction false} CellsFront(cs: seq<Cellular>, s: Stream)
    ensures WriteCells(cs, s) == WriteCells(cs, []) + s
  {
    hide WriteCell;
    if cs == [] {
    } else {
      CellsFront(cs[1..], s);
      CellFront(cs[0], WriteCells(cs[1..], s));
      CellFront(cs[0], WriteCells(cs[1..], []));
    }
  }

  lemma RecordFront(r: ScanRecord, s: Stream)
    ensures WriteRecord(r, s) == WriteRecord(r, []) + s
    ensures WriteRecord(r, []) == [Int32(r.kind)] + WriteWifi(r.wifi, []) + WriteBluetooth(r.bluetooth, []) +
      [Int32(r.slotId)] + WriteCell(r.camped, []) + [Int32(ToInt32(|r.neighbors|))] + WriteCells(r.neighbors, [])
  {
    hide WriteWifi, WriteBluetooth, WriteCell, WriteCells;
    var size := Int32(ToInt32(|r.neighbors|));
    forall t: Stream | t == s || t == []
      ensures WriteRecord(r, t) == [Int32(r.kind)] + WriteWifi(r.wifi, []) + WriteBluetooth(r.bluetooth, []) +
        [Int32(r.slotId)] + WriteCell(r.camped, []) + [size] + WriteCells(r.neighbors, []) + t
    {
      CellsFront(r.neighbors, t);
      CellFront(r.camped, Put(size, WriteCells(r.neighbors, t)));
      BluetoothFront(r.bluetooth, Put(Int32(r.slotId), WriteCellPart(r, t)));
      WifiFront(r.wifi, WriteBluetooth(r.bluetooth, Put(Int32(r.slotId), WriteCellPart(r, t))));
    }
  }
}
