/** The read cursor every parser of the forwarder moves over a datagram (src/AutoBuffer.h). */
module AutoBuffers {
  import opened Bytes

  class AutoBuffer {
    var data: seq<byte>
    var offset: nat

    predicate Valid()
      reads this
    {
      offset <= |data|
    }

    constructor ()
      ensures Valid() && data == [] && offset == 0
    {
      data := [];
      offset := 0;
    }

    /** Replaces the bytes; the offset stays where it was. */
    method Assign(bytes: seq<byte>)
      modifies this`data
      ensures data == bytes
    {
      data := bytes;
    }

    /** A failed read moves nothing; its 0 stands for the caller's untouched variable. */
    method ReadUINT8() returns (ok: bool, n: byte)
      requires Valid()
      modifies this`offset
      ensures ok == (old(offset) < |data|)
      ensures ok ==> n == data[old(offset)]
      ensures !ok ==> n == 0
      ensures offset == old(offset) + (if ok then 1 else 0)
      ensures Valid()
    {
      if |data| - offset < 1 {
        return false, 0;
      }
      ok, n := true, data[offset];
      offset := offset + 1;
    }

    method ReadUINT16() returns (ok: bool, n: uint16)
      requires Valid()
      modifies this`offset
      ensures ok == (old(offset) + 2 <= |data|)
      ensures ok ==> n == U16(data, old(offset))
      ensures !ok ==> n == 0
      ensures offset == old(offset) + (if ok then 2 else 0)
      ensures Valid()
    {
      if |data| - offset < 2 {
        return false, 0;
      }
      ok, n := true, U16(data, offset);
      offset := offset + 2;
    }

    method ReadUINT32() returns (ok: bool, n: uint32)
      requires Valid()
      modifies this`offset
      ensures ok == (old(offset) + 4 <= |data|)
      ensures ok ==> n == U32(data, old(offset))
      ensures !ok ==> n == 0
      ensures offset == old(offset) + (if ok then 4 else 0)
      ensures Valid()
    {
      if |data| - offset < 4 {
        return false, 0;
      }
      ok, n := true, U32(data, offset);
      offset := offset + 4;
    }

    method ReadBuffer(len: nat) returns (ok: bool, bytes: seq<byte>)
      requires Valid()
      modifies this`offset
      ensures ok == (old(offset) + len <= |data|)
      ensures ok ==> bytes == data[old(offset)..old(offset) + len]
      ensures offset == old(offset) + (if ok then len else 0)
      ensures Valid()
    {
      if |data| - offset < len {
        return false, [];
      }
      ok, bytes := true, data[offset..offset + len];
      offset := offset + len;
    }
  }
}
