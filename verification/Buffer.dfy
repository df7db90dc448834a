/** lib/buffer.c: storage shared by a read and a write pointer. */
module Buffers {
  import opened Bytes
  import opened Queues

  class Buffer {
    const data: array<Byte>
    var read: nat
    var write: nat

    /** The documented invariant R <= W <= limit; the pointers only meet at the start of the storage. */
    ghost predicate Valid()
      reads this
    {
      read <= write <= data.Length && (read == write ==> read == 0)
    }

    ghost function Model(): (q: Queue)
      requires Valid()
      reads this, data
      ensures q.Valid()
    {
      Queue(data.Length, read, data[read..write])
    }

    /** buffer_init over storage that belongs to the caller. */
    constructor (storage: array<Byte>)
      ensures Valid() && data == storage
      ensures Model() == Empty(storage.Length)
    {
      data := storage;
      read, write := 0, 0;
    }

    method Reset()
      modifies this
      ensures Valid() && Model() == Empty(data.Length)
    {
      read := 0;
      write := 0;
    }

    method CanWrite() returns (able: bool)
      requires Valid()
      ensures able <==> Model().Room() > 0
    {
      able := data.Length - write > 0;
    }

    method CanRead() returns (able: bool)
      requires Valid()
      ensures able <==> Model().unread != []
    {
      able := write - read > 0;
    }

    /** buffer_write_ptr: how many octets may be written from `write` on. */
    method WritePtr() returns (nbyte: nat)
      requires Valid()
      ensures nbyte == Model().Room()
    {
      nbyte := data.Length - write;
    }

    /** buffer_read_ptr: how many octets may be read from `read` on. */
    method ReadPtr() returns (nbyte: nat)
      requires Valid()
      ensures nbyte == |Model().unread|
    {
      nbyte := write - read;
    }

    /** memcpy to the write pointer: nothing is accepted yet. */
    method Copy(bytes: seq<Byte>)
      requires Valid() && |bytes| <= Model().Room()
      modifies data
      ensures Model() == old(Model())
      ensures data[write..write + |bytes|] == bytes
    {
      for i := 0 to |bytes|
        invariant data[write..write + i] == bytes[..i]
        invariant data[read..write] == old(data[read..write])
      {
        data[write + i] := bytes[i];
      }
    }

    /** The octets already copied behind the write pointer become readable; a negative count is a failed recv. */
    method WriteAdv(bytes: int)
      requires Valid() && bytes <= Model().Room()
      modifies this
      ensures Valid()
      ensures Model() == if bytes > -1 then old(Model().Append(data[write..write + bytes])) else old(Model())
    {
      if bytes > -1 {
        write := write + bytes;
      }
    }

    method ReadAdv(bytes: int)
      requires Valid() && bytes <= |Model().unread|
      modifies this, data
      ensures Valid()
      ensures Model() == if bytes > -1 then old(Model().Advance(bytes)) else old(Model())
    {
      if bytes > -1 {
        read := read + bytes;
        if read == write {
          Compact();
        }
      }
    }

    /** buffer_read: the next octet, or 0 when there is none. */
    method Read() returns (ret: Byte)
      requires Valid()
      modifies this, data
      ensures Valid()
      ensures old(Model().unread) != [] ==> ret == old(Model().unread[0]) && Model() == old(Model().Advance(1))
      ensures old(Model().unread) == [] ==> ret == NUL && Model() == old(Model())
    {
      var able := CanRead();
      if able {
        ret := data[read];
        ReadAdv(1);
      } else {
        ret := NUL;
      }
    }

    /** buffer_write: silently does nothing when the buffer is full. */
    method Write(c: Byte)
      requires Valid()
      modifies this, data
      ensures Valid()
      ensures Model() == old(Model().Offer([c]))
    {
      var able := CanWrite();
      if able {
        data[write] := c;
        WriteAdv(1);
      }
    }

    /** The unread octets move to the start of the storage; unlike the other operations this one also accepts the
        state in the middle of ReadAdv, where the pointers have just met. */
    method Compact()
      requires read <= write <= data.Length
      modifies this, data
      ensures Valid()
      ensures Model() == Queue(data.Length, 0, old(data[read..write]))
    {
      if 0 == read {
      } else if read == write {
        read := 0;
        write := 0;
      } else {
        var n := write - read;
        for i := 0 to n
          invariant read == old(read) && write == old(write)
          invariant forall j :: 0 <= j < i ==> data[j] == old(data[read + j])
          invariant forall j :: i + read <= j < write ==> data[j] == old(data[j])
        {
          data[i] := data[read + i];
        }
        read := 0;
        write := n;
      }
    }
  }
}
