/** The packet buffer and the cursors that write and read it.  Memory that a caller passes in is a
    sequence of bytes or null; memory that is filled in place is an array or null. */
module Packets {
  import opened Bytes
  import opened Words

  const MAX_PACKET_SIZE: nat := 65536

  datatype Pointer = Null | To(bytes: ByteBuffer)

  class PacketBuffer {
    var data: ByteBuffer

    ghost predicate Valid()
      reads this
    {
      |data| <= MAX_PACKET_SIZE
    }

    constructor ()
      ensures Valid() && data == []
    {
      data := [];
    }

    /** Growing fills with zeroes; false stands for the length error. */
    method Resize(size: nat) returns (ok: bool)
      requires Valid()
      modifies this
      ensures Valid() && ok == (size <= 65536)
      ensures data == if ok then Resized(old(data), size) else old(data)
    {
      if size > MAX_PACKET_SIZE {
        return false;
      }
      data := Resized(data, size);
      return true;
    }
  }

  function Resized(b: ByteBuffer, size: nat): (r: ByteBuffer)
    ensures |r| == size
    ensures forall i :: 0 <= i < size ==> r[i] == if i < |b| then b[i] else 0
  {
    if size <= |b| then b[..size] else b + seq(size - |b|, _ => 0 as byte)
  }

  // ---- writing ----

  /** A buffer with a cursor in it. */
  datatype Cursor = Cursor(buffer: ByteBuffer, offset: nat)

  predicate HasRoom(c: Cursor, size: nat) {
    size == 0 || c.offset + size <= MAX_PACKET_SIZE
  }

  /** The bytes `x` at the cursor, the buffer grown where it ends too early, the cursor behind them. */
  function Wrote(c: Cursor, x: ByteBuffer): Cursor {
    if x == [] then c
    else
      var end := c.offset + |x|;
      var b := if end > |c.buffer| then Resized(c.buffer, end) else c.buffer;
      Cursor(b[..c.offset] + x + b[end..], end)
  }

  class PacketWriter {
    const buffer: PacketBuffer
    var offset: nat

    constructor (buffer: PacketBuffer)
      ensures this.buffer == buffer && offset == 0
    {
      this.buffer := buffer;
      offset := 0;
    }

    function View(): Cursor
      reads this, buffer
    {
      Cursor(buffer.data, offset)
    }

    method WriteBytes(data: Pointer, size: nat) returns (ok: bool)
      requires buffer.Valid() && (data.To? ==> size <= |data.bytes|)
      modifies this, buffer
      ensures buffer.Valid()
      ensures ok <==> size == 0 || (data.To? && old(offset) + size <= 65536)
      ensures View() == if ok && size > 0 then Wrote(old(View()), data.bytes[..size]) else old(View())
    {
      if size == 0 {
        return true;
      }
      if data == Null {
        return false;
      }
      var requiredSize := offset + size;
      if requiredSize > MAX_PACKET_SIZE {
        return false;
      }
      if requiredSize > |buffer.data| {
        var _ := buffer.Resize(requiredSize);
      }
      buffer.data := buffer.data[..offset] + data.bytes[..size] + buffer.data[requiredSize..];
      offset := offset + size;
      return true;
    }

    /** A value of a fixed-width type, as its bytes. */
    method Write(value: nat, width: nat) returns (ok: bool)
      requires buffer.Valid() && value < Pow256(width)
      modifies this, buffer
      ensures buffer.Valid() && ok == HasRoom(old(View()), width)
      ensures View() == if ok then Wrote(old(View()), LittleEndian(value, width)) else old(View())
    {
      var bytes := LittleEndian(value, width);
      assert bytes[..width] == bytes;
      ok := WriteBytes(To(bytes), width);
    }

    /** A string goes in with its length or not at all, as far as the cursor is concerned. */
    method WriteString(str: ByteBuffer) returns (ok: bool)
      requires buffer.Valid()
      modifies this, buffer
      ensures buffer.Valid() && ok == (old(offset) + 4 + |str| <= 65536)
      ensures ok ==> View() == Wrote(old(View()), EncodeField(Text(str)))
      ensures !ok ==> offset == old(offset)
      ensures !ok && old(offset) + 4 <= MAX_PACKET_SIZE ==>
        buffer.data == Wrote(old(View()), LittleEndian(|str| % WORD32, 4)).buffer
      ensures !ok && old(offset) + 4 > MAX_PACKET_SIZE ==> buffer.data == old(buffer.data)
    {
      FieldSizes();
      var length := |str| % WORD32;
      var originalOffset := offset;
      ok := Write(length, 4);
      if !ok {
        return false;
      }
      assert str[..|str|] == str;
      ok := WriteBytes(To(str), |str|);
      if !ok {
        offset := originalOffset;
        return false;
      }
      WroteTwice(old(View()), LittleEndian(length, 4), str);
      return true;
    }

    method Reset()
      modifies this
      ensures offset == 0
    {
      offset := 0;
    }
  }

  /** Two writes in a row are one write of both. */
  lemma WroteTwice(c: Cursor, x: ByteBuffer, y: ByteBuffer)
    ensures Wrote(Wrote(c, x), y) == Wrote(c, x + y)
  {
    if x == [] {
      assert x + y == y;
    } else if y == [] {
      assert x + y == x;
    } else {
      var once, twice := Wrote(c, x + y), Wrote(Wrote(c, x), y);
      assert |once.buffer| == |twice.buffer|;
      forall i | 0 <= i < |once.buffer| ensures once.buffer[i] == twice.buffer[i] { }
    }
  }

  /** A write alters nothing before the cursor, nor behind what it writes. */
  lemma WroteKeepsTheRest(c: Cursor, x: ByteBuffer)
    requires c.offset <= |c.buffer|
    ensures var r := Wrote(c, x);
      && r.offset == c.offset + |x| <= |r.buffer|
      && r.buffer[..c.offset] == c.buffer[..c.offset]
      && r.buffer[c.offset..r.offset] == x
      && (r.offset < |c.buffer| ==> r.buffer[r.offset..] == c.buffer[r.offset..])
  {
  }

  // ---- reading ----

  /** A string object that is filled in place. */
  class Str {
    var text: ByteBuffer

    constructor ()
      ensures text == []
    {
      text := [];
    }
  }

  class PacketReader {
    const view: ByteBuffer
    var offset: nat

    constructor (view: ByteBuffer)
      ensures this.view == view && offset == 0 && Valid()
    {
      this.view := view;
      offset := 0;
    }

    ghost predicate Valid()
      reads this
    {
      offset <= |view|
    }

    function Remaining(): nat
      requires Valid()
      reads this
    {
      |view| - offset
    }

    method ReadBytes(dst: array?<byte>, size: nat) returns (ok: bool)
      requires Valid() && (dst != null ==> size <= dst.Length)
      modifies this, if dst == null then {} else {dst}
      ensures Valid() && ok == (dst != null && 0 < size <= |view| - old(offset))
      ensures offset == if ok then old(offset) + size else old(offset)
      ensures dst != null ==> dst[..] == if ok then view[old(offset)..offset] + old(dst[size..]) else old(dst[..])
    {
      if dst == null || size == 0 {
        return false;
      }
      if size > Remaining() {
        return false;
      }
      forall i | 0 <= i < size {
        dst[i] := view[offset + i];
      }
      offset := offset + size;
      assert dst[..] == dst[..size] + dst[size..];
      return true;
    }

    /** A value of a fixed-width type; the result is 0 when it could not be read. */
    method Read(width: nat) returns (ok: bool, value: nat)
      requires Valid() && width > 0
      modifies this
      ensures Valid()
      ensures match ReadField(view, old(offset), FixedShape(width))
        case Got(field, end) => ok && field == Fixed(value, width) && offset == end
        case Short => !ok && offset == old(offset)
    {
      var dst := new byte[width];
      ok := ReadBytes(dst, width);
      value := 0;
      if ok {
        assert dst[..] == view[old(offset)..offset];
        value := FromLittleEndian(dst[..]);
      }
    }

    /** The string is assigned and passed over when it is there in full; otherwise neither the string
        nor the cursor changes. */
    method ReadString(str: Str) returns (ok: bool)
      requires Valid()
      modifies this, str
      ensures Valid()
      ensures match ReadField(view, old(offset), TextShape)
        case Got(field, end) => ok && field == Text(str.text) && offset == end
        case Short => !ok && offset == old(offset) && str.text == old(str.text)
    {
      var originalOffset := offset;
      var length;
      ok, length := Read(4);
      if !ok {
        return false;
      }
      if length > Remaining() {
        offset := originalOffset;
        return false;
      }
      str.text := view[offset..offset + length];
      offset := offset + length;
      return true;
    }
  }

  // ---- fields ----

  datatype Field = Fixed(value: nat, width: nat) | Text(text: ByteBuffer)

  datatype Shape = FixedShape(width: nat) | TextShape

  function ShapeOf(f: Field): Shape {
    match f
    case Fixed(_, width) => FixedShape(width)
    case Text(_) => TextShape
  }

  /** The value fits its width; a string's length fits its 32 bits. */
  predicate FieldOk(f: Field) {
    match f
    case Fixed(value, width) => width > 0 && value < Pow256(width)
    case Text(text) => |text| < WORD32
  }

  function EncodeField(f: Field): ByteBuffer {
    match f
    case Fixed(value, width) => LittleEndian(value, width)
    case Text(text) => LittleEndian(|text| % WORD32, 4) + text
  }

  /** The bytes of a field, one by one, lowest byte first; a string follows the four bytes of its length. */
  lemma FieldLayout(f: Field)
    ensures f.Fixed? ==> |EncodeField(f)| == f.width
    ensures f.Fixed? ==> forall i: nat {:trigger EncodeField(f)[i]} ::
      i < f.width ==> EncodeField(f)[i] as nat == (f.value / Pow256(i)) % 256
    ensures f.Text? ==> |EncodeField(f)| == 4 + |f.text| && EncodeField(f)[4..] == f.text
    ensures f.Text? ==> var n := |f.text| % 0x1_0000_0000;
      EncodeField(f)[..4] ==
      [(n % 256) as byte, (n / 256 % 256) as byte, (n / 65536 % 256) as byte, (n / 16777216 % 256) as byte]
  {
    match f
    case Fixed(value, width) =>
      forall i: nat | i < width ensures EncodeField(f)[i] as nat == (value / Pow256(i)) % 256 {
        LittleEndianAt(value, width, i);
      }
    case Text(text) =>
      ShortFields(|text| % 0x1_0000_0000);
      hide LittleEndian;
  }

  function EncodeFields(fields: seq<Field>): ByteBuffer {
    if fields == [] then [] else EncodeField(fields[0]) + EncodeFields(fields[1..])
  }

  datatype ReadResult = Got(field: Field, end: nat) | Short

  /** What reading one field of a shape at `offset` gives, and where it ends. */
  function ReadField(view: ByteBuffer, offset: nat, shape: Shape): (r: ReadResult)
    requires offset <= |view|
    ensures r.Got? ==> offset <= r.end <= |view|
  {
    match shape
    case FixedShape(width) =>
      if width == 0 || width > |view| - offset then Short
      else Got(Fixed(FromLittleEndian(view[offset..offset + width]), width), offset + width)
    case TextShape =>
      if 4 > |view| - offset then Short
      else
        var length := FromLittleEndian(view[offset..offset + 4]);
        if length > |view| - offset - 4 then Short
        else Got(Text(view[offset + 4..offset + 4 + length]), offset + 4 + length)
  }

  lemma SliceOfSlice(view: ByteBuffer, i: nat, j: nat, k: nat)
    requires i <= j <= k <= |view|
    ensures view[i..k] == view[i..j] + view[j..k]
    ensures view[i..k][..j - i] == view[i..j] && view[i..k][j - i..] == view[j..k]
  {
  }

  lemma FixedReads(view: ByteBuffer, offset: nat, f: Field, end: nat)
    requires offset <= |view| && FieldOk(f) && f.Fixed?
    ensures ReadField(view, offset, ShapeOf(f)) == Got(f, end) <==>
      offset <= end <= |view| && view[offset..end] == EncodeField(f)
  {
    FieldRoundTrip(f.value, f.width);
    if offset + f.width <= |view| {
      BytesRoundTrip(view[offset..offset + f.width]);
    }
  }

  lemma TextReads(view: ByteBuffer, offset: nat, text: ByteBuffer, end: nat)
    requires offset <= end <= |view| && view[offset..end] == EncodeField(Text(text)) && |text| < WORD32
    ensures ReadField(view, offset, TextShape) == Got(Text(text), end)
  {
    var length := LittleEndian(|text|, 4);
    assert view[offset..end] == length + text;
    assert end == offset + 4 + |text|;
    SliceOfSlice(view, offset, offset + 4, end);
    assert (length + text)[..4] == length && (length + text)[4..] == text;
    FieldSizes();
    FieldRoundTrip(|text|, 4);
  }

  lemma TextIsEncoded(view: ByteBuffer, offset: nat, text: ByteBuffer, end: nat)
    requires offset <= |view| && ReadField(view, offset, TextShape) == Got(Text(text), end)
    ensures end <= |view| && view[offset..end] == EncodeField(Text(text))
  {
    hide LittleEndian, FromLittleEndian, Pow256;
    FieldSizes();
    BytesRoundTrip(view[offset..offset + 4]);
    SliceOfSlice(view, offset, offset + 4, end);
    assert |text| == FromLittleEndian(view[offset..offset + 4]) < WORD32;
  }

  /** Reading a field finds exactly the encodings: a field is read and ends at `end` exactly when
      the bytes up to there are its encoding. */
  lemma ReadsExactlyEncodings(view: ByteBuffer, offset: nat, f: Field, end: nat)
    requires offset <= |view| && FieldOk(f)
    ensures ReadField(view, offset, ShapeOf(f)) == Got(f, end) <==>
      offset <= end <= |view| && view[offset..end] == EncodeField(f)
  {
    if f.Fixed? {
      FixedReads(view, offset, f, end);
    } else {
      if ReadField(view, offset, TextShape) == Got(f, end) {
        TextIsEncoded(view, offset, f.text, end);
      }
      if offset <= end <= |view| && view[offset..end] == EncodeField(f) {
        TextReads(view, offset, f.text, end);
      }
    }
  }

  // ---- whole records ----

  /** Writing fields one after the other stops at the first that does not fit. */
  function WriteFields(c: Cursor, fields: seq<Field>): (r: (Cursor, bool))
    decreases |fields|
  {
    if fields == [] then (c, true)
    else if !HasRoom(c, |EncodeField(fields[0])|) then (c, false)
    else WriteFields(Wrote(c, EncodeField(fields[0])), fields[1..])
  }

  datatype RecordResult = Record(fields: seq<Field>, end: nat) | Broken

  function ReadFields(view: ByteBuffer, offset: nat, shapes: seq<Shape>): (r: RecordResult)
    requires offset <= |view|
    decreases |shapes|
  {
    if shapes == [] then Record([], offset)
    else
      match ReadField(view, offset, shapes[0])
      case Short => Broken
      case Got(field, end) =>
        match ReadFields(view, end, shapes[1..])
        case Broken => Broken
        case Record(fields, end') => Record([field] + fields, end')
  }

  function Shapes(fields: seq<Field>): (shapes: seq<Shape>)
    ensures |shapes| == |fields|
  {
    seq(|fields|, i requires 0 <= i < |fields| => ShapeOf(fields[i]))
  }

  /** A record is written whole exactly when its encoding ends within the packet limit, and then as
      one write of that encoding. */
  lemma {:induction false} WritesWhatFits(c: Cursor, fields: seq<Field>)
    requires forall i :: 0 <= i < |fields| ==> FieldOk(fields[i])
    ensures WriteFields(c, fields).1 <==> HasRoom(c, |EncodeFields(fields)|)
    ensures WriteFields(c, fields).1 ==> WriteFields(c, fields).0 == Wrote(c, EncodeFields(fields))
    decreases |fields|
  {
    if fields != [] {
      var first, others := EncodeField(fields[0]), EncodeFields(fields[1..]);
      assert |first| > 0;
      WroteTwice(c, first, others);
      WritesWhatFits(Wrote(c, first), fields[1..]);
      hide EncodeField;
      assert HasRoom(c, |first|) ==> Wrote(c, first).offset == c.offset + |first|;
    }
  }

  lemma CutAfter(view: ByteBuffer, offset: nat, a: ByteBuffer, b: ByteBuffer)
    requires offset <= |view| && view[offset..] == a + b
    ensures offset + |a| <= |view| && view[offset..offset + |a|] == a && view[offset + |a|..] == b
  {
    SliceOfSlice(view, offset, offset + |a|, |view|);
    assert view[offset..] == view[offset..|view|] && view[offset + |a|..] == view[offset + |a|..|view|];
    assert (a + b)[..|a|] == a && (a + b)[|a|..] == b;
  }

  lemma {:induction false} ReadsEncodings(view: ByteBuffer, offset: nat, fields: seq<Field>)
    requires forall i :: 0 <= i < |fields| ==> FieldOk(fields[i])
    requires offset <= |view| && view[offset..] == EncodeFields(fields)
    ensures ReadFields(view, offset, Shapes(fields)) == Record(fields, |view|)
    decreases |fields|
  {
    hide EncodeField, ReadField, FieldOk, ShapeOf;
    if fields != [] {
      var first := EncodeField(fields[0]);
      var end := offset + |first|;
      CutAfter(view, offset, first, EncodeFields(fields[1..]));
      ReadsExactlyEncodings(view, offset, fields[0], end);
      ReadsEncodings(view, end, fields[1..]);
      assert Shapes(fields)[1..] == Shapes(fields[1..]);
    }
  }

  /** Whatever the buffer held before: a record within the limit, written from offset 0 and read back
      over the first `offset` bytes, is restored field by field, and the view is used up exactly. */
  lemma RecordRoundTrip(buffer: ByteBuffer, fields: seq<Field>)
    requires forall i :: 0 <= i < |fields| ==> FieldOk(fields[i])
    ensures var (c, ok) := WriteFields(Cursor(buffer, 0), fields);
      && (ok <==> |EncodeFields(fields)| <= 65536)
      && (ok ==> c.offset == |EncodeFields(fields)| <= |c.buffer|)
      && (ok ==> ReadFields(c.buffer[..c.offset], 0, Shapes(fields)) == Record(fields, c.offset))
  {
    var start := Cursor(buffer, 0);
    WritesWhatFits(start, fields);
    if WriteFields(start, fields).1 {
      WroteKeepsTheRest(start, EncodeFields(fields));
      var c := WriteFields(start, fields).0;
      var view := c.buffer[..c.offset];
      assert view == c.buffer[0..c.offset] && view[0..] == view;
      ReadsEncodings(view, 0, fields);
    }
  }
}
