/** Packet: one byte buffer with a read position Front and a write position Rear. */
module Packets {
  import opened XorCipher

  const BUFFER_DEFAULT := 1024
  const HEADER_DEFAULT := 20

  class Packet {
    const buffer: array<Byte>
    var front: int
    var rear: int
    var encodeFlag: bool

    ghost predicate Valid()
      reads this
    {
      0 <= front <= rear <= buffer.Length
    }

    // The bytes between Front and Rear.
    ghost function Data(): (d: seq<Byte>)
      requires Valid()
      reads this, buffer
      ensures |d| == rear - front
    {
      buffer[front..rear]
    }

    constructor (bufferSize: nat)
      ensures Valid() && fresh(buffer) && buffer.Length == bufferSize
      ensures front == rear == 0 && !encodeFlag
    {
      buffer := new Byte[bufferSize];
      front, rear, encodeFlag := 0, 0, false;
    }

    method Clear()
      requires HEADER_DEFAULT <= buffer.Length
      modifies this
      ensures Valid() && front == rear == HEADER_DEFAULT && !encodeFlag && Data() == []
    {
      front := HEADER_DEFAULT;
      rear := HEADER_DEFAULT;
      encodeFlag := false;
    }

    method MoveWritePos(size: int) returns (moved: int)
      requires Valid() && front <= rear + size
      modifies this`rear
      ensures Valid()
      ensures moved == if old(rear) + size > buffer.Length then buffer.Length - old(rear) else size
      ensures rear == old(rear) + moved
    {
      moved := size;
      if rear + moved > buffer.Length {
        moved := buffer.Length - rear;
      }
      rear := rear + moved;
    }

    method MoveReadPos(size: int) returns (moved: int)
      requires Valid() && 0 <= front + size
      modifies this`front
      ensures Valid()
      ensures moved == if old(front) + size > rear then rear - old(front) else size
      ensures front == old(front) + moved
    {
      moved := size;
      if front + moved > rear {
        moved := rear - front;
      }
      front := front + moved;
    }

    // Copies to dest[at..]; the source leaves it to the caller that dest has room.
    method GetData(dest: array<Byte>, at: nat, size: nat) returns (got: nat)
      requires Valid() && dest != buffer
      requires at + (if front + size > rear then rear - front else size) <= dest.Length
      modifies this`front, dest
      ensures Valid() && front == old(front) + got
      ensures got == if old(front) + size > rear then rear - old(front) else size
      ensures dest[..] == old(dest[..at]) + old(Data())[..got] + old(dest[at + got..])
      ensures Data() == old(Data())[got..]
    {
      got := size;
      if front + got > rear {
        got := rear - front;
      }
      for i := 0 to got
        invariant dest[..] == old(dest[..at]) + old(Data())[..i] + old(dest[at + i..])
        invariant buffer[..] == old(buffer[..]) && front == old(front)
      {
        assert buffer[front + i] == buffer[..][front + i] == old(Data())[i];
        dest[at + i] := buffer[front + i];
      }
      front := front + got;
    }

    method PutData(src: seq<Byte>) returns (put: nat)
      requires Valid()
      modifies this`rear, buffer
      ensures Valid() && rear == old(rear) + put
      ensures put == if old(rear) + |src| > buffer.Length then buffer.Length - old(rear) else |src|
      ensures Data() == old(Data()) + src[..put]
    {
      put := |src|;
      if rear + put > buffer.Length {
        put := buffer.Length - rear;
      }
      forall i | 0 <= i < put {
        buffer[rear + i] := src[i];
      }
      rear := rear + put;
    }

    method ShiftDataToFront()
      requires Valid()
      modifies this`front, this`rear, buffer
      ensures Valid() && front == 0 && Data() == old(Data())
    {
      var dataSize := rear - front;
      var i := 0;
      while i < dataSize
        invariant 0 <= i <= dataSize && front == old(front) && rear == old(rear)
        invariant forall k :: 0 <= k < i ==> buffer[k] == old(buffer[..])[front + k]
        invariant forall k :: front + i <= k < buffer.Length ==> buffer[k] == old(buffer[..])[k]
      {
        buffer[i] := buffer[front + i];
        i := i + 1;
      }
      ghost var was := old(Data());
      assert forall k :: 0 <= k < dataSize ==> buffer[k] == was[k];
      front := 0;
      rear := dataSize;
      assert Data() == was;
    }
  }

  /** What is written with PutData is read back with GetData, for any size that fits. */
  method WriteThenRead(packet: Packet, src: seq<Byte>, dest: array<Byte>)
    requires packet.Valid() && packet.front == packet.rear && packet.buffer != dest
    requires packet.rear + |src| <= packet.buffer.Length && dest.Length == |src|
    modifies packet, packet.buffer, dest
    ensures packet.Valid() && packet.front == packet.rear && dest[..] == src
  {
    var put := packet.PutData(src);
    assert packet.Data() == src;
    var got := packet.GetData(dest, 0, |src|);
  }
}
