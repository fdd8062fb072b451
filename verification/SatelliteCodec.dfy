/**
 The codec of a satellite status, seven columns that are written row by row.
 */
module SatelliteCodec {
  import opened Integers
  import opened Parcels

  const MAXIMUM_INTERATION := 100

  datatype Row = Row(id: int32, carrierToNoiseDensity: Double, altitude: Double, azimuth: Double,
    carrierFrequency: Double, constellationType: int32, additionalInfo: int32)

  /** The number of satellites and the seven columns. */
  datatype Status = Status(number: uint32, ids: seq<int32>, carrierToNoiseDensitys: seq<Double>,
    altitudes: seq<Double>, azimuths: seq<Double>, carrierFrequencies: seq<Double>,
    constellationTypes: seq<int32>, additionalInfos: seq<int32>)

  /** Every column is as long as the number says. */
  predicate IsValidityDatas(st: Status) {
    && st.number == |st.ids| == |st.carrierToNoiseDensitys| == |st.altitudes| == |st.azimuths|
    && st.number == |st.carrierFrequencies| == |st.constellationTypes| == |st.additionalInfos|
  }

  function RowAt(st: Status, i: nat): Row
    requires IsValidityDatas(st) && i < st.number
  {
    Row(st.ids[i], st.carrierToNoiseDensitys[i], st.altitudes[i], st.azimuths[i], st.carrierFrequencies[i],
      st.constellationTypes[i], st.additionalInfos[i])
  }

  function RowsOf(st: Status): (rows: seq<Row>)
    requires IsValidityDatas(st)
    ensures |rows| == st.number
  {
    seq(st.number, i requires 0 <= i < st.number => RowAt(st, i))
  }

  function PushRow(st: Status, r: Row): Status {
    st.(ids := st.ids + [r.id],
      carrierToNoiseDensitys := st.carrierToNoiseDensitys + [r.carrierToNoiseDensity],
      altitudes := st.altitudes + [r.altitude], azimuths := st.azimuths + [r.azimuth],
      carrierFrequencies := st.carrierFrequencies + [r.carrierFrequency],
      constellationTypes := st.constellationTypes + [r.constellationType],
      additionalInfos := st.additionalInfos + [r.additionalInfo])
  }

  /** The columns `st` has after the rows are pushed. */
  function PushRows(st: Status, rows: seq<Row>): Status {
    if rows == [] then st else PushRow(PushRows(st, rows[..|rows| - 1]), rows[|rows| - 1])
  }

  const EMPTY: Status := Status(0, [], [], [], [], [], [], [])

  function WriteRow(r: Row, s: Stream): Stream {
    Put(Int64(r.id), Put(Float64(r.carrierToNoiseDensity), Put(Float64(r.altitude), Put(Float64(r.azimuth),
      Put(Float64(r.carrierFrequency), Put(Int64(r.constellationType), Put(Int64(r.additionalInfo), s)))))))
  }

  /** The integers are read as 64 bits and stored as 32. */
  function ReadRow(s: Stream): Read<Row> {
    var id := ReadInt64(s);
    var density := ReadDouble(id.rest);
    var altitude := ReadDouble(density.rest);
    var azimuth := ReadDouble(altitude.rest);
    var frequency := ReadDouble(azimuth.rest);
    var constellation := ReadInt64(frequency.rest);
    var info := ReadInt64(constellation.rest);
    Read(Row(ToInt32(id.value), density.value, altitude.value, azimuth.value, frequency.value,
      ToInt32(constellation.value), ToInt32(info.value)), info.rest)
  }

  function WriteRows(rows: seq<Row>, s: Stream): Stream {
    if rows == [] then s else WriteRow(rows[0], WriteRows(rows[1..], s))
  }

  function ReadRows(n: nat, s: Stream): (r: Read<seq<Row>>)
    ensures |r.value| == n
  {
    if n == 0 then Read([], s)
    else
      var first := ReadRow(s);
      var others := ReadRows(n - 1, first.rest);
      Read([first.value] + others.value, others.rest)
  }

  /** Only a status whose columns fit its number is written. */
  function WriteStatus(st: Status, s: Stream): Stream {
    if IsValidityDatas(st) then Put(Int64(st.number), WriteRows(RowsOf(st), s)) else s
  }

  function RowCount(n: int): uint32 {
    Capped(ToUint32(n), MAXIMUM_INTERATION)
  }

  /** Reading into an object that holds `st`: the number is replaced, the columns grow. */
  function ReadStatusOnto(st: Status, s: Stream): Read<Status> {
    var number := ReadInt64(s);
    var rows := ReadRows(RowCount(number.value), number.rest);
    Read(PushRows(st.(number := RowCount(number.value)), rows.value), rows.rest)
  }

  function ReadStatus(s: Stream): Read<Status> {
    ReadStatusOnto(EMPTY, s)
  }

  /** The order of a row on the wire. */
  lemma RowLayout(r: Row)
    ensures WriteRow(r, []) == [
      Int64(r.id), Float64(r.carrierToNoiseDensity), Float64(r.altitude), Float64(r.azimuth),
      Float64(r.carrierFrequency), Int64(r.constellationType), Int64(r.additionalInfo)]
  {
  }

  // ---------- reading back ----------

  lemma RowIsReadBack(r: Row, s: Stream)
    ensures ReadRow(WriteRow(r, s)) == Read(r, s)
  {
    hide Put, ReadInt64, ReadDouble;
    PutIsReadBack();
  }

  lemma {:induction false} RowsAreReadBack(read: seq<Row>, left: seq<Row>, s: Stream)
    ensures ReadRows(|read|, WriteRows(read + left, s)) == Read(read, WriteRows(left, s))
  {
    hide WriteRow, ReadRow;
    if read == [] {
      assert read + left == left;
    } else {
      assert (read + left)[1..] == read[1..] + left;
      RowIsReadBack(read[0], WriteRows(read[1..] + left, s));
      RowsAreReadBack(read[1..], left, s);
      assert read == [read[0]] + read[1..];
    }
  }

  lemma {:induction false} RowsLength(rows: seq<Row>, s: Stream)
    ensures |WriteRows(rows, s)| == 7 * |rows| + |s|
  {
    if rows == [] {
    } else {
      RowsLength(rows[1..], s);
    }
  }

  /** The status cut to its first rows. */
  function Cut(st: Status, n: uint32): Status
    requires IsValidityDatas(st) && n <= st.number
  {
    Status(n, st.ids[..n], st.carrierToNoiseDensitys[..n], st.altitudes[..n], st.azimuths[..n],
      st.carrierFrequencies[..n], st.constellationTypes[..n], st.additionalInfos[..n])
  }

  lemma TakeOneMore<T>(column: seq<T>, n: nat)
    requires n < |column|
    ensures column[..n] + [column[n]] == column[..n + 1]
  {
  }

  lemma CutGrows(st: Status, n: uint32)
    requires IsValidityDatas(st) && n < st.number
    ensures PushRow(Cut(st, n).(number := 0), RowAt(st, n)) == Cut(st, n + 1).(number := 0)
  {
    TakeOneMore(st.ids, n);
    TakeOneMore(st.carrierToNoiseDensitys, n);
    TakeOneMore(st.altitudes, n);
    TakeOneMore(st.azimuths, n);
    TakeOneMore(st.carrierFrequencies, n);
    TakeOneMore(st.constellationTypes, n);
    TakeOneMore(st.additionalInfos, n);
  }

  lemma {:induction false} PushedRowsAreTheCut(st: Status, n: uint32)
    requires IsValidityDatas(st) && n <= st.number
    ensures PushRows(EMPTY, RowsOf(st)[..n]) == Cut(st, n).(number := 0)
    decreases n
  {
    if n == 0 {
    } else {
      PushedRowsAreTheCut(st, n - 1);
      CutGrows(st, n - 1);
      assert RowsOf(st)[..n][..n - 1] == RowsOf(st)[..n - 1];
    }
  }

  lemma {:induction false} PushKeepsNumber(st: Status, n: uint32, rows: seq<Row>)
    ensures PushRows(st.(number := n), rows) == PushRows(st, rows).(number := n)
  {
    if rows == [] {
    } else {
      PushKeepsNumber(st, n, rows[..|rows| - 1]);
    }
  }

  /** A status of any length comes back with its first 100 rows; the others stay unread, seven cells each. */
  lemma StatusIsReadBack(st: Status, s: Stream)
    requires IsValidityDatas(st)
    ensures
      var n := RowCount(st.number);
      && n <= st.number
      && ReadStatus(WriteStatus(st, s)) == Read(Cut(st, n), WriteRows(RowsOf(st)[n..], s))
      && |WriteRows(RowsOf(st)[n..], s)| == 7 * (st.number - n) + |s|
  {
    hide Put, ReadInt64, WriteRows, ReadRows, PushRows;
    PutIsReadBack();
    var n := RowCount(st.number);
    var rows := RowsOf(st);
    assert rows[..n] + rows[n..] == rows;
    RowsAreReadBack(rows[..n], rows[n..], s);
    PushedRowsAreTheCut(st, n);
    PushKeepsNumber(EMPTY, n, rows[..n]);
    RowsLength(rows[n..], s);
  }

  /** So it comes back whole, and what follows it is left untouched, exactly up to 100 rows. */
  lemma StatusRoundTripExactlyUpTo100(st: Status, s: Stream)
    requires IsValidityDatas(st)
    ensures ReadStatus(WriteStatus(st, s)) == Read(st, s) <==> st.number <= MAXIMUM_INTERATION
  {
    hide ReadStatus, WriteStatus, WriteRows;
    StatusIsReadBack(st, s);
    if st.number <= MAXIMUM_INTERATION {
      assert Cut(st, st.number) == st;
      RowsLength(RowsOf(st)[st.number..], s);
      NoRows(RowsOf(st)[st.number..], s);
    }
  }

  lemma NoRows(rows: seq<Row>, s: Stream)
    requires rows == []
    ensures WriteRows(rows, s) == s
  {
  }

  lemma {:induction false} PushedBehind(st: Status, rows: seq<Row>)
    ensures
      var r, tail := PushRows(st, rows), PushRows(EMPTY, rows);
      && r.ids == st.ids + tail.ids
      && r.carrierToNoiseDensitys == st.carrierToNoiseDensitys + tail.carrierToNoiseDensitys
      && r.altitudes == st.altitudes + tail.altitudes
      && r.azimuths == st.azimuths + tail.azimuths
      && r.carrierFrequencies == st.carrierFrequencies + tail.carrierFrequencies
      && r.constellationTypes == st.constellationTypes + tail.constellationTypes
      && r.additionalInfos == st.additionalInfos + tail.additionalInfos
      && r.number == st.number && tail.number == 0
  {
    if rows == [] {
    } else {
      PushedBehind(st, rows[..|rows| - 1]);
    }
  }

  /** Read into an object that is there already, the first 100 rows follow those it has, and the number is
      theirs alone. */
  lemma StatusIsReadBehind(held: Status, st: Status, s: Stream)
    requires IsValidityDatas(st)
    ensures
      var n := Capped(st.number, MAXIMUM_INTERATION);
      var r := ReadStatusOnto(held, WriteStatus(st, s)).value;
      && r.number == n
      && r.ids == held.ids + st.ids[..n]
      && r.carrierToNoiseDensitys == held.carrierToNoiseDensitys + st.carrierToNoiseDensitys[..n]
      && r.altitudes == held.altitudes + st.altitudes[..n]
      && r.azimuths == held.azimuths + st.azimuths[..n]
      && r.carrierFrequencies == held.carrierFrequencies + st.carrierFrequencies[..n]
      && r.constellationTypes == held.constellationTypes + st.constellationTypes[..n]
      && r.additionalInfos == held.additionalInfos + st.additionalInfos[..n]
  {
    hide PushRows, WriteStatus, ReadRows;
    var number := ReadInt64(WriteStatus(st, s));
    var rows := ReadRows(RowCount(number.value), number.rest).value;
    StatusIsReadBack(st, s);
    PushedBehind(held.(number := RowCount(number.value)), rows);
    PushedBehind(EMPTY.(number := RowCount(number.value)), rows);
  }

  // ---------- reading anything ----------

  lemma {:induction false} PushGrowsColumns(st: Status, rows: seq<Row>)
    ensures
      var r := PushRows(st, rows);
      && r.number == st.number
      && |r.ids| == |st.ids| + |rows|
      && |r.carrierToNoiseDensitys| == |st.carrierToNoiseDensitys| + |rows|
      && |r.altitudes| == |st.altitudes| + |rows|
      && |r.azimuths| == |st.azimuths| + |rows|
      && |r.carrierFrequencies| == |st.carrierFrequencies| + |rows|
      && |r.constellationTypes| == |st.constellationTypes| + |rows|
      && |r.additionalInfos| == |st.additionalInfos| + |rows|
  {
    if rows == [] {
    } else {
      PushGrowsColumns(st, rows[..|rows| - 1]);
    }
  }

  /** Whatever the stream and the object, the result can be marshalled exactly when the columns were
      empty before. */
  lemma ReadingIsValidExactlyIntoEmptyColumns(st: Status, s: Stream)
    ensures IsValidityDatas(ReadStatusOnto(st, s).value) <==>
      st.ids == [] && st.carrierToNoiseDensitys == [] && st.altitudes == [] && st.azimuths == []
      && st.carrierFrequencies == [] && st.constellationTypes == [] && st.additionalInfos == []
  {
    var number := ReadInt64(s);
    var rows := ReadRows(RowCount(number.value), number.rest);
    PushGrowsColumns(st.(number := RowCount(number.value)), rows.value);
  }

  /** What was read into a new object from any stream survives being written and read again. */
  lemma ReadStatusIsStable(s: Stream, t: Stream)
    ensures
      var st := ReadStatus(s).value;
      IsValidityDatas(st) && st.number <= MAXIMUM_INTERATION && ReadStatus(WriteStatus(st, t)) == Read(st, t)
  {
    var st := ReadStatus(s).value;
    ReadingIsValidExactlyIntoEmptyColumns(EMPTY, s);
    var number := ReadInt64(s);
    PushGrowsColumns(EMPTY.(number := RowCount(number.value)), ReadRows(RowCount(number.value), number.rest).value);
    StatusRoundTripExactlyUpTo100(st, t);
  }

  // ---------- the object ----------

  lemma ReadRowsHead(n: nat, s: Stream, before: seq<Row>)
    ensures n == 0 ==> ReadRows(n, s) == Read([], s)
    ensures n > 0 ==>
      var first := ReadRow(s);
      var others := ReadRows(n - 1, first.rest);
      && before + ReadRows(n, s).value == (before + [first.value]) + others.value
      && ReadRows(n, s).rest == others.rest
  {
    hide ReadRow;
  }

  lemma PushOneMore(st: Status, rows: seq<Row>, r: Row)
    ensures
      var before := PushRows(st, rows);
      PushRows(st, rows + [r]) == before.(ids := before.ids + [r.id],
        carrierToNoiseDensitys := before.carrierToNoiseDensitys + [r.carrierToNoiseDensity],
        altitudes := before.altitudes + [r.altitude], azimuths := before.azimuths + [r.azimuth],
        carrierFrequencies := before.carrierFrequencies + [r.carrierFrequency],
        constellationTypes := before.constellationTypes + [r.constellationType],
        additionalInfos := before.additionalInfos + [r.additionalInfo])
  {
    assert (rows + [r])[..|rows|] == rows;
  }

  lemma RowMovesFront(r: Row, s: Stream)
    ensures WriteRow(r, s) == WriteRow(r, []) + s
  {
    hide Put;
    PutMovesFront();
    assert [] + s == s;
  }

  lemma {:induction false} RowsStream(rows: seq<Row>, before: Stream)
    ensures rows == [] ==> before + WriteRows(rows, []) == before
    ensures rows != [] ==> before + WriteRows(rows, []) == before + WriteRow(rows[0], []) + WriteRows(rows[1..], [])
  {
    hide WriteRow;
    if rows != [] {
      RowMovesFront(rows[0], WriteRows(rows[1..], []));
    }
  }

  class SatelliteStatus {
    var satellitesNumber: uint32
    var satelliteIds: seq<int32>
    var carrierToNoiseDensitys: seq<Double>
    var altitudes: seq<Double>
    var azimuths: seq<Double>
    var carrierFrequencies: seq<Double>
    var constellationTypes: seq<int32>
    var additionalInfoList: seq<int32>

    function View(): Status
      reads this
    {
      Status(satellitesNumber, satelliteIds, carrierToNoiseDensitys, altitudes, azimuths, carrierFrequencies,
        constellationTypes, additionalInfoList)
    }

    constructor ()
      ensures View() == EMPTY
    {
      satellitesNumber, satelliteIds, carrierToNoiseDensitys, altitudes := 0, [], [], [];
      azimuths, carrierFrequencies, constellationTypes, additionalInfoList := [], [], [], [];
    }

    method PushRow(parcel: Parcel) returns (ghost r: Row)
      requires parcel.Valid()
      modifies this, parcel
      ensures parcel.Valid() && Read(r, parcel.Unread()) == ReadRow(old(parcel.Unread()))
      ensures View() == PushRows(old(View()), [r])
    {
      hide ReadInt64, ReadDouble, Parcel.Unread, Parcel.Valid, PushRows;
      var id := parcel.TakeInt64();
      var density := parcel.TakeDouble();
      var altitude := parcel.TakeDouble();
      var azimuth := parcel.TakeDouble();
      var frequency := parcel.TakeDouble();
      var constellation := parcel.TakeInt64();
      var info := parcel.TakeInt64();
      r := Row(ToInt32(id), density, altitude, azimuth, frequency, ToInt32(constellation), ToInt32(info));
      PushOneMore(View(), [], r);
      assert [] + [r] == [r];
      PushNone(View());
      satelliteIds := satelliteIds + [ToInt32(id)];
      carrierToNoiseDensitys := carrierToNoiseDensitys + [density];
      altitudes := altitudes + [altitude];
      azimuths := azimuths + [azimuth];
      carrierFrequencies := carrierFrequencies + [frequency];
      constellationTypes := constellationTypes + [ToInt32(constellation)];
      additionalInfoList := additionalInfoList + [ToInt32(info)];
    }

    method ReadFromParcel(parcel: Parcel)
      requires parcel.Valid()
      modifies this, parcel
      ensures parcel.Valid() && Read(View(), parcel.Unread()) == ReadStatusOnto(old(View()), old(parcel.Unread()))
    {
      hide ReadInt64, ReadRow, ReadRows, PushRows, Parcel.Unread, Parcel.Valid;
      var number := parcel.TakeInt64();
      satellitesNumber := ToUint32(number);
      satellitesNumber := if satellitesNumber > MAXIMUM_INTERATION then MAXIMUM_INTERATION else satellitesNumber;
      ghost var n := satellitesNumber;
      ghost var start := View();
      ghost var all := ReadRows(n, parcel.Unread());
      ghost var read: seq<Row> := [];
      assert read + all.value == all.value;
      PushNone(start);
      var i := 0;
      while i < satellitesNumber
        invariant 0 <= i <= n && parcel.Valid() && satellitesNumber == n
        invariant View() == PushRows(start, read)
        invariant
          var left := ReadRows(n - i, parcel.Unread());
          read + left.value == all.value && left.rest == all.rest
      {
        ReadRowsHead(n - i, parcel.Unread(), read);
        ghost var row := PushRow(parcel);
        PushOneMore(start, read, row);
        PushOneMore(PushRows(start, read), [], row);
        assert [] + [row] == [row];
        PushNone(PushRows(start, read));
        read := read + [row];
        i := i + 1;
      }
      ReadRowsHead(0, parcel.Unread(), read);
      assert read + [] == read;
    }

    method Marshalling(parcel: Parcel) returns (ok: bool)
      requires parcel.Valid()
      modifies parcel
      ensures parcel.Valid() && ok == IsValidityDatas(View())
      ensures parcel.Unread() == old(parcel.Unread()) + WriteStatus(View(), [])
    {
      hide Put, WriteRow, WriteRows, Parcel.Unread, Parcel.Valid;
      if !IsValidityDatas(View()) {
        return false;
      }
      PutShifts();
      ghost var rows := RowsOf(View());
      ghost var before := parcel.Unread();
      parcel.Write(Int64(satellitesNumber));
      var i := 0;
      while i < satellitesNumber
        invariant 0 <= i <= satellitesNumber && parcel.Valid()
        invariant parcel.Unread() + WriteRows(rows[i..], []) == before + [Int64(satellitesNumber)] + WriteRows(rows, [])
      {
        RowsStream(rows[i..], parcel.Unread());
        assert rows[i..][1..] == rows[i + 1..];
        WriteRowToParcel(parcel, RowAt(View(), i));
        i := i + 1;
      }
      RowsStream(rows[i..], parcel.Unread());
      return true;
    }
  }

  lemma PushNone(st: Status)
    ensures PushRows(st, []) == st
  {
  }

  method WriteRowToParcel(parcel: Parcel, r: Row)
    requires parcel.Valid()
    modifies parcel
    ensures parcel.Valid() && parcel.Unread() == old(parcel.Unread()) + WriteRow(r, [])
  {
    hide Put, Parcel.Unread, Parcel.Valid;
    PutShifts();
    parcel.Write(Int64(r.id));
    parcel.Write(Float64(r.carrierToNoiseDensity));
    parcel.Write(Float64(r.altitude));
    parcel.Write(Float64(r.azimuth));
    parcel.Write(Float64(r.carrierFrequency));
    parcel.Write(Int64(r.constellationType));
    parcel.Write(Int64(r.additionalInfo));
  }
}
