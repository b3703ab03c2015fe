/** The connection of agonet as a byte stream (`contribute/agonet/connection.go`). */
module Connection {

  newtype byte = x: int | 0 <= x < 256

  datatype ReadError = NetClosed | ShortBuffer

  datatype Result<T> = Ok(value: T) | Err(error: ReadError)

  function Min(a: int, b: int): int {
    if a < b then a else b
  }

  /** A connection keeps the bytes left over from earlier packets and the current packet in two buffers.
      Its readers see one queue, `Contents`. */
  class Conn {
    var closed: bool          // released: the raw connection and the packet buffer are gone
    var inbound: seq<byte>    // left over from earlier packets
    var buffer: seq<byte>     // the current packet
    var cache: seq<byte>      // the last bytes peeked across both buffers

    constructor ()
      ensures !closed && Contents() == []
    {
      closed, inbound, buffer, cache := false, [], [], [];
    }

    ghost function Contents(): seq<byte>
      reads this
    {
      inbound + buffer
    }

    /** A packet arrives: its bytes join the packet buffer, unless the connection was released. */
    method Unpack(packet: seq<byte>) returns (ok: bool)
      modifies this`buffer
      ensures ok == !closed
      ensures Contents() == if closed then old(Contents()) else old(Contents()) + packet
    {
      if closed {
        return false;
      }
      buffer := buffer + packet;
      assert Contents() == old(Contents()) + packet;
      return true;
    }

    /** Fills `p` from the front of the queue. */
    method Read(p: array<byte>) returns (n: nat, error: bool)
      modifies this`inbound, this`buffer, p
      ensures closed ==> n == 0 && error && p[..] == old(p[..]) && Contents() == old(Contents())
      ensures !closed ==>
        && n == Min(p.Length, |old(Contents())|)
        && (forall i :: 0 <= i < p.Length ==> p[i] == if i < n then old(Contents())[i] else old(p[i]))
        && Contents() == old(Contents())[n..]
        && (error <==> n == 0 && p.Length > 0)
      ensures |buffer| <= |old(buffer)|
    {
      if closed {
        return 0, true;
      }
      if inbound == [] {
        n := Min(p.Length, |buffer|);
        forall i | 0 <= i < n { p[i] := buffer[i]; }
        assert Contents() == buffer;
        buffer := buffer[n..];
        error := n == 0 && p.Length > 0;
        return;
      }
      n := Min(p.Length, |inbound|);
      forall i | 0 <= i < n { p[i] := inbound[i]; }
      inbound := inbound[n..];
      if n == p.Length {
        return n, false;
      }
      var m := Min(p.Length - n, |buffer|);
      forall i | 0 <= i < m { p[n + i] := buffer[i]; }
      buffer := buffer[m..];
      n := n + m;
      error := false;
    }

    /** Takes the next `n` bytes; takes nothing for `n <= 0`. */
    method Next(n: int) returns (r: Result<seq<byte>>)
      modifies this`inbound, this`buffer
      ensures r == if closed then Err(NetClosed)
                   else if n <= 0 then Ok([])
                   else if n > |old(Contents())| then Err(ShortBuffer)
                   else Ok(old(Contents())[..n])
      ensures Contents() == if r.Ok? && n > 0 then old(Contents())[n..] else old(Contents())
      ensures |buffer| <= |old(buffer)|
    {
      if closed {
        return Err(NetClosed);
      }
      if n <= 0 {
        return Ok([]);
      }
      if n > |inbound| + |buffer| {
        return Err(ShortBuffer);
      }
      if inbound == [] {
        assert Contents() == buffer;
        r := Ok(buffer[..n]);
        buffer := buffer[n..];
        return;
      }
      var copied := new byte[n];
      var _, error := Read(copied);
      assert copied[..] == old(Contents())[..n];
      return Ok(copied[..]);
    }

    /** The next `n` bytes without taking them; everything for `n <= 0`. */
    method Peek(n: int) returns (r: Result<seq<byte>>)
      modifies this`cache
      ensures r == if closed then Err(NetClosed)
                   else if n > |Contents()| then Err(ShortBuffer)
                   else Ok(Contents()[..if n <= 0 then |Contents()| else n])
    {
      if closed {
        return Err(NetClosed);
      }
      var total := |inbound| + |buffer|;
      if n > total {
        return Err(ShortBuffer);
      }
      var size: nat := if n <= 0 then total else n;
      if inbound == [] {
        assert Contents() == buffer;
        return Ok(buffer[..size]);
      }
      // The ring shows its bytes in two pieces, split where it wraps around.
      var shown: nat := Min(size, |inbound|);
      var wrap: nat :| wrap <= shown;
      var head, tail := inbound[..wrap], inbound[wrap..shown];
      if |head| == size {
        assert Contents()[..size] == head;
        return Ok(head);
      }
      var peeked := head + tail;
      assert peeked == inbound[..shown];
      if |inbound| >= size {
        assert Contents()[..size] == inbound[..size];
        return Ok(peeked);
      }
      peeked := peeked + buffer[..size - |inbound|];
      assert Contents()[..size] == peeked;
      cache := peeked;
      return Ok(peeked);
    }

    /** Drops the next `n` bytes; drops everything for `n <= 0`. */
    method Discard(n: int) returns (r: Result<nat>)
      modifies this`inbound, this`buffer, this`cache
      ensures closed ==> r == Err(NetClosed) && Contents() == old(Contents())
      ensures !closed ==>
        var total := |old(Contents())|;
        var dropped := if n <= 0 || n >= total then total else n;
        r == Ok(dropped) && Contents() == old(Contents())[dropped..]
      ensures |buffer| <= |old(buffer)|
    {
      if closed {
        return Err(NetClosed);
      }
      cache := [];
      var inBufferLen := |inbound|;
      var total := inBufferLen + |buffer|;
      if n >= total || n <= 0 {
        inbound, buffer := [], [];
        return Ok(total);
      }
      if inbound == [] {
        buffer := buffer[n..];
        return Ok(n);
      }
      var discarded := Min(n, inBufferLen);
      inbound := inbound[discarded..];
      if discarded < inBufferLen {
        assert Contents() == old(Contents())[n..];
        return Ok(discarded);
      }
      buffer := buffer[n - inBufferLen..];
      return Ok(n);
    }

    method InboundBuffered() returns (n: nat)
      ensures n == if closed then 0 else |Contents()|
    {
      if closed {
        return 0;
      }
      return |inbound| + |buffer|;
    }

    /** What the packet did not use joins the leftovers: the queue stays, the packet buffer is empty. */
    method Flush()
      modifies this`inbound, this`buffer
      ensures Contents() == old(Contents()) && buffer == []
    {
      inbound := inbound + buffer;
      buffer := [];
    }

    method Release()
      modifies this
      ensures closed && Contents() == []
    {
      closed, inbound, buffer, cache := true, [], [], [];
    }
  }
}
