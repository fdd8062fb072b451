/**
 The message parcel: a queue of typed cells that is written at its end and read from a cursor.
 A read that does not find a cell of its type returns the type's zero value and leaves the cursor.
 */
module Parcels {
  import opened Integers

  /** A floating-point number is only stored and compared; `Double(0)` is 0.0. */
  datatype Double = Double(bits: int)

  const ZERO: Double := Double(0)

  /** UTF-16 text.  The two conversions are taken to be inverse to each other. */
  datatype String16 = String16(text: string)

  function Str8ToStr16(s: string): String16 {
    String16(s)
  }

  function Str16ToStr8(s: String16): string {
    s.text
  }

  datatype Cell =
    | Int32(i32: int32)
    | Uint32(u32: uint32)
    | Int64(i64: int64)
    | Uint64(u64: uint64)
    | Boolean(b: bool)
    | Float64(f64: Double)
    | Text(text: string)
    | Text16(text16: String16)
    | Int32Vector(ints: seq<int32>)
    | Text16Vector(texts: seq<String16>)

  type Stream = seq<Cell>

  datatype Read<+T> = Read(value: T, rest: Stream)

  /** A stream with one more cell in front. */
  function Put(c: Cell, s: Stream): Stream {
    [c] + s
  }

  lemma PutAtFront(c: Cell, s: Stream)
    ensures Put(c, s) != [] && Put(c, s)[0] == c && Put(c, s)[1..] == s
  {
  }

  lemma Regroup(start: Stream, a: Stream, b: Stream, c: Stream)
    ensures start + a + b + c == start + (a + b + c)
  {
  }

  lemma RegroupMany(start: Stream, a: Stream, b: Stream, c: Stream, d: Stream, e: Stream, f: Stream, g: Stream)
    ensures start + a + b + c + d + e + f + g == start + (a + b + c + d + e + f + g)
  {
    Regroup(start, a, b, c);
    Regroup(start, a + b + c, d, e);
    Regroup(start, a + b + c + d + e, f, g);
  }

  function ReadInt32(s: Stream): Read<int32> {
    if s != [] && s[0].Int32? then Read(s[0].i32, s[1..]) else Read(0, s)
  }

  function ReadUint32(s: Stream): Read<uint32> {
    if s != [] && s[0].Uint32? then Read(s[0].u32, s[1..]) else Read(0, s)
  }

  function ReadInt64(s: Stream): Read<int64> {
    if s != [] && s[0].Int64? then Read(s[0].i64, s[1..]) else Read(0, s)
  }

  function ReadUint64(s: Stream): Read<uint64> {
    if s != [] && s[0].Uint64? then Read(s[0].u64, s[1..]) else Read(0, s)
  }

  function ReadBool(s: Stream): Read<bool> {
    if s != [] && s[0].Boolean? then Read(s[0].b, s[1..]) else Read(false, s)
  }

  function ReadDouble(s: Stream): Read<Double> {
    if s != [] && s[0].Float64? then Read(s[0].f64, s[1..]) else Read(ZERO, s)
  }

  function ReadString(s: Stream): Read<string> {
    if s != [] && s[0].Text? then Read(s[0].text, s[1..]) else Read("", s)
  }

  function ReadString16(s: Stream): Read<String16> {
    if s != [] && s[0].Text16? then Read(s[0].text16, s[1..]) else Read(String16(""), s)
  }

  function ReadInt32Vector(s: Stream): Read<seq<int32>> {
    if s != [] && s[0].Int32Vector? then Read(s[0].ints, s[1..]) else Read([], s)
  }

  function ReadString16Vector(s: Stream): Read<seq<String16>> {
    if s != [] && s[0].Text16Vector? then Read(s[0].texts, s[1..]) else Read([], s)
  }

  // ---------- how cells in front of a stream behave ----------

  /** A cell in front is what the read of its type returns. */
  lemma PutIsReadBack()
    ensures forall v: int32, s: Stream :: ReadInt32(Put(Int32(v), s)) == Read(v, s)
    ensures forall v: uint32, s: Stream :: ReadUint32(Put(Uint32(v), s)) == Read(v, s)
    ensures forall v: int64, s: Stream :: ReadInt64(Put(Int64(v), s)) == Read(v, s)
    ensures forall v: uint64, s: Stream :: ReadUint64(Put(Uint64(v), s)) == Read(v, s)
    ensures forall v: bool, s: Stream :: ReadBool(Put(Boolean(v), s)) == Read(v, s)
    ensures forall v: Double, s: Stream :: ReadDouble(Put(Float64(v), s)) == Read(v, s)
    ensures forall v: string, s: Stream :: ReadString(Put(Text(v), s)) == Read(v, s)
    ensures forall v: String16, s: Stream :: ReadString16(Put(Text16(v), s)) == Read(v, s)
    ensures forall v: seq<int32>, s: Stream :: ReadInt32Vector(Put(Int32Vector(v), s)) == Read(v, s)
    ensures forall v: seq<String16>, s: Stream :: ReadString16Vector(Put(Text16Vector(v), s)) == Read(v, s)
  {
    hide Put;
    forall c: Cell, s: Stream
      ensures Put(c, s) != [] && Put(c, s)[0] == c && Put(c, s)[1..] == s
    {
      PutAtFront(c, s);
    }
  }

  /** Cells in front do not mind what is added behind. */
  lemma PutMovesFront()
    ensures forall c, s: Stream, t: Stream {:trigger Put(c, s + t)} :: Put(c, s + t) == Put(c, s) + t
    ensures forall s: Stream {:trigger [] + s} :: [] + s == s
  {
  }

  /** A cell in front of a tail can as well be the last of what comes before. */
  lemma PutShifts()
    ensures forall s: Stream, c, t: Stream {:trigger s + Put(c, t)} :: s + Put(c, t) == s + [c] + t
    ensures forall s: Stream {:trigger s + []} :: s + [] == s
  {
  }

  class Parcel {
    var cells: Stream
    var cursor: nat

    predicate Valid()
      reads this
    {
      cursor <= |cells|
    }

    function Unread(): Stream
      requires Valid()
      reads this
    {
      cells[cursor..]
    }

    constructor ()
      ensures Valid() && cells == [] && cursor == 0
    {
      cells, cursor := [], 0;
    }

    /** Every `Write…` of the source appends one cell. */
    method Write(c: Cell)
      requires Valid()
      modifies this`cells
      ensures Valid() && cells == old(cells) + [c]
      ensures Unread() == old(Unread()) + [c]
    {
      cells := cells + [c];
    }

    method TakeInt32() returns (v: int32)
      requires Valid()
      modifies this`cursor
      ensures Valid() && Read(v, Unread()) == ReadInt32(old(Unread()))
    {
      v := ReadInt32(Unread()).value;
      if cursor < |cells| && cells[cursor].Int32? {
        cursor := cursor + 1;
      }
    }

    method TakeUint32() returns (v: uint32)
      requires Valid()
      modifies this`cursor
      ensures Valid() && Read(v, Unread()) == ReadUint32(old(Unread()))
    {
      v := ReadUint32(Unread()).value;
      if cursor < |cells| && cells[cursor].Uint32? {
        cursor := cursor + 1;
      }
    }

    method TakeInt64() returns (v: int64)
      requires Valid()
      modifies this`cursor
      ensures Valid() && Read(v, Unread()) == ReadInt64(old(Unread()))
    {
      v := ReadInt64(Unread()).value;
      if cursor < |cells| && cells[cursor].Int64? {
        cursor := cursor + 1;
      }
    }

    method TakeUint64() returns (v: uint64)
      requires Valid()
      modifies this`cursor
      ensures Valid() && Read(v, Unread()) == ReadUint64(old(Unread()))
    {
      v := ReadUint64(Unread()).value;
      if cursor < |cells| && cells[cursor].Uint64? {
        cursor := cursor + 1;
      }
    }

    method TakeBool() returns (v: bool)
      requires Valid()
      modifies this`cursor
      ensures Valid() && Read(v, Unread()) == ReadBool(old(Unread()))
    {
      v := ReadBool(Unread()).value;
      if cursor < |cells| && cells[cursor].Boolean? {
        cursor := cursor + 1;
      }
    }

    method TakeDouble() returns (v: Double)
      requires Valid()
      modifies this`cursor
      ensures Valid() && Read(v, Unread()) == ReadDouble(old(Unread()))
    {
      v := ReadDouble(Unread()).value;
      if cursor < |cells| && cells[cursor].Float64? {
        cursor := cursor + 1;
      }
    }

    method TakeString() returns (v: string)
      requires Valid()
      modifies this`cursor
      ensures Valid() && Read(v, Unread()) == ReadString(old(Unread()))
    {
      v := ReadString(Unread()).value;
      if cursor < |cells| && cells[cursor].Text? {
        cursor := cursor + 1;
      }
    }

    method TakeString16() returns (v: String16)
      requires Valid()
      modifies this`cursor
      ensures Valid() && Read(v, Unread()) == ReadString16(old(Unread()))
    {
      v := ReadString16(Unread()).value;
      if cursor < |cells| && cells[cursor].Text16? {
        cursor := cursor + 1;
      }
    }

    method TakeInt32Vector() returns (v: seq<int32>)
      requires Valid()
      modifies this`cursor
      ensures Valid() && Read(v, Unread()) == ReadInt32Vector(old(Unread()))
    {
      v := ReadInt32Vector(Unread()).value;
      if cursor < |cells| && cells[cursor].Int32Vector? {
        cursor := cursor + 1;
      }
    }

    method TakeString16Vector() returns (v: seq<String16>)
      requires Valid()
      modifies this`cursor
      ensures Valid() && Read(v, Unread()) == ReadString16Vector(old(Unread()))
    {
      v := ReadString16Vector(Unread()).value;
      if cursor < |cells| && cells[cursor].Text16Vector? {
        cursor := cursor + 1;
      }
    }
  }
}
