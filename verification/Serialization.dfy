/** The serialization layer over the packet cursors.  Strings carry the same 32-bit length as in the
    packet layer, but are limited to 1 MiB, and a failure does not put the cursor back. */
module Serialization {
  import opened Bytes
  import opened Words
  import opened Packets

  const MAX_STRING_LENGTH: nat := 1024 * 1024

  class BinaryWriter {
    const writer: PacketWriter

    constructor (writer: PacketWriter)
      ensures this.writer == writer
    {
      this.writer := writer;
    }

    method WriteBytes(data: Pointer, size: nat) returns (ok: bool)
      requires writer.buffer.Valid() && (data.To? ==> size <= |data.bytes|)
      modifies writer, writer.buffer
      ensures writer.buffer.Valid()
      ensures ok <==> size == 0 || (data.To? && HasRoom(old(writer.View()), size))
      ensures writer.View() == if ok && size > 0 then Wrote(old(writer.View()), data.bytes[..size])
        else old(writer.View())
    {
      if size == 0 {
        return true;
      }
      if data == Null {
        return false;
      }
      ok := writer.WriteBytes(data, size);
    }

    method Write(value: nat, width: nat) returns (ok: bool)
      requires writer.buffer.Valid() && value < Pow256(width)
      modifies writer, writer.buffer
      ensures writer.buffer.Valid() && ok == HasRoom(old(writer.View()), width)
      ensures writer.View() == if ok then Wrote(old(writer.View()), LittleEndian(value, width)) else old(writer.View())
    {
      var bytes := LittleEndian(value, width);
      assert bytes[..width] == bytes;
      ok := WriteBytes(To(bytes), width);
    }

    /** A string is written as the packet layer would write it, exactly when that would succeed.
        When only its length finds room, the length stays behind and the cursor has moved. */
    method WriteString(value: ByteBuffer) returns (ok: bool)
      requires writer.buffer.Valid()
      modifies writer, writer.buffer
      ensures writer.buffer.Valid() && ok == (old(writer.offset) + 4 + |value| <= 65536)
      ensures ok ==> writer.View() == Wrote(old(writer.View()), EncodeField(Text(value)))
      ensures !ok && LengthOnly(old(writer.View()), value) ==>
        writer.View() == Wrote(old(writer.View()), LittleEndian(|value|, 4))
      ensures !ok && !LengthOnly(old(writer.View()), value) ==> writer.View() == old(writer.View())
    {
      hide Wrote, LittleEndian, EncodeField, Pow256;
      if |value| > MAX_STRING_LENGTH {
        return false;
      }
      TextEncoding(value);
      FieldSizes();
      WroteText(writer.View(), value);
      WroteOffset(writer.View(), LittleEndian(|value|, 4));
      var length := |value|;
      ok := Write(length, 4);
      if !ok {
        return false;
      }
      if length == 0 {
        assert LittleEndian(length, 4) + value == LittleEndian(length, 4);
        return true;
      }
      assert value[..length] == value;
      ok := WriteBytes(To(value), length);
    }
  }

  lemma TextEncoding(text: ByteBuffer)
    requires |text| < WORD32
    ensures EncodeField(Text(text)) == LittleEndian(|text|, 4) + text
  {
    hide LittleEndian;
    SmallRemainder(|text|, WORD32);
  }

  lemma SmallRemainder(x: nat, n: nat)
    requires x < n
    ensures x % n == x
  {
  }

  lemma WroteText(c: Cursor, text: ByteBuffer)
    requires |text| < WORD32
    ensures Wrote(Wrote(c, LittleEndian(|text|, 4)), text) == Wrote(c, EncodeField(Text(text)))
  {
    hide Wrote, LittleEndian, EncodeField;
    TextEncoding(text);
    WroteTwice(c, LittleEndian(|text|, 4), text);
  }

  lemma WroteOffset(c: Cursor, x: ByteBuffer)
    ensures Wrote(c, x).offset == c.offset + |x|
  {
  }

  /** The length prefix is within both limits, whatever becomes of the string. */
  predicate LengthOnly(c: Cursor, value: ByteBuffer) {
    |value| <= MAX_STRING_LENGTH && c.offset + 4 <= MAX_PACKET_SIZE
  }

  class BinaryReader {
    const reader: PacketReader

    constructor (reader: PacketReader)
      ensures this.reader == reader
    {
      this.reader := reader;
    }

    method ReadBytes(dst: array?<byte>, size: nat) returns (ok: bool)
      requires reader.Valid() && (dst != null ==> size <= dst.Length)
      modifies reader, if dst == null then {} else {dst}
      ensures reader.Valid() && ok == (size == 0 || (dst != null && size <= |reader.view| - old(reader.offset)))
      ensures reader.offset == if ok then old(reader.offset) + size else old(reader.offset)
      ensures dst != null ==>
        dst[..] == if ok then reader.view[old(reader.offset)..reader.offset] + old(dst[size..]) else old(dst[..])
    {
      if size == 0 {
        return true;
      }
      if dst == null {
        return false;
      }
      ok := reader.ReadBytes(dst, size);
    }

    method Read(width: nat) returns (ok: bool, value: nat)
      requires reader.Valid() && width > 0
      modifies reader
      ensures reader.Valid()
      ensures match ReadField(reader.view, old(reader.offset), FixedShape(width))
        case Got(field, end) => ok && field == Fixed(value, width) && reader.offset == end
        case Short => !ok && reader.offset == old(reader.offset)
    {
      var dst := new byte[width];
      ok := ReadBytes(dst, width);
      value := 0;
      if ok {
        assert dst[..] == reader.view[old(reader.offset)..reader.offset];
        value := FromLittleEndian(dst[..]);
      }
    }

    /** A string is read exactly when the packet layer would read it and it is within the limit.  A
        failure leaves the cursor behind the length, if there was one, and never leaves part of the
        string: it is empty, or as it was when the length was missing or over the limit. */
    method ReadString(value: Str) returns (ok: bool)
      requires reader.Valid()
      modifies reader, value
      ensures reader.Valid()
      ensures ok <==>
        var r := ReadField(reader.view, old(reader.offset), TextShape);
        r.Got? && |r.field.text| <= 0x10_0000
      ensures ok ==> ReadField(reader.view, old(reader.offset), TextShape) == Got(Text(value.text), reader.offset)
      ensures !ok && old(reader.Remaining()) < 4 ==>
        reader.offset == old(reader.offset) && value.text == old(value.text)
      ensures !ok && old(reader.Remaining()) >= 4 ==>
        && reader.offset == old(reader.offset) + 4
        && value.text ==
             if FromLittleEndian(reader.view[old(reader.offset)..reader.offset]) > MAX_STRING_LENGTH then
               old(value.text) else []
    {
      var length;
      ok, length := Read(4);
      if !ok {
        return false;
      }
      if length > MAX_STRING_LENGTH {
        return false;
      }
      if length == 0 {
        value.text := [];
        assert reader.view[reader.offset..reader.offset] == [];
        return true;
      }
      var text := new byte[length];
      assert text[length..] == [];
      ok := ReadBytes(text, length);
      if !ok {
        value.text := [];
        return false;
      }
      value.text := text[..];
      assert value.text == reader.view[old(reader.offset) + 4..reader.offset];
    }
  }
}
