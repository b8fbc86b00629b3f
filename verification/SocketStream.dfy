/**
 Sockets, the buffered reader above one, and the stream that is either.

 A socket is a sequence of bytes still to come, received in pieces of any size.  `SocketStream` keeps a
 buffer of bytes received and not yet handed out; its `Read` has the contract of a receive, with the
 buffered bytes in front of those to come.

 `Stream` is what the line reader and the chunked reader use.  It may be the bare socket or the buffered
 reader, and its contract is the same for both, so that what is proved above it holds over each.
 */
module SocketStreaming {
  const READ_BUFF_SIZE: nat := 4096
  const SSIZE_MAX: nat := 0x7fff_ffff_ffff_ffff

  /**
   A socket with the bytes still to come.  A receive may return fewer bytes than asked for; it returns 0
   only at the end.  An unreliable socket may also fail (-1) at any receive.
   */
  class Socket {
    const reliable: bool
    var data: string

    constructor (data: string, reliable: bool)
      ensures this.data == data && this.reliable == reliable
    {
      this.data, this.reliable := data, reliable;
    }

    method Receive(size: nat) returns (n: int, bytes: string)
      modifies this`data
      ensures n == -1 ==> !reliable && data == old(data)
      ensures n != -1 ==> 0 <= n <= size && n <= |old(data)|
      ensures n != -1 ==> bytes == old(data)[..n] && data == old(data)[n..]
      ensures n == 0 ==> size == 0 || old(data) == ""
    {
      if !reliable {
        if * {
          return -1, "";
        }
      }
      if size == 0 || data == "" {
        return 0, "";
      }
      n :| 1 <= n <= size && n <= |data|;
      bytes := data[..n];
      data := data[n..];
    }
  }

  class SocketStream {
    const sock: Socket
    const buff: array<char>
    var off: nat
    var contentSize: nat

    /** Everything read() has returned since construction. */
    ghost var handed: string

    constructor (sock: Socket)
      ensures Valid() && fresh(buff) && this.sock == sock && handed == "" && Pending() == sock.data
    {
      this.sock, handed := sock, "";
      buff := new char[READ_BUFF_SIZE](_ => '\0');
      off, contentSize := 0, 0;
      new;
      assert buff[0..0] + sock.data == sock.data;
    }

    /** Bytes received from the socket and not yet handed out. */
    ghost function Buffered(): string
      reads this, buff
      requires off <= contentSize <= buff.Length
    {
      buff[off..contentSize]
    }

    ghost predicate Valid()
      reads this
    {
      buff.Length == READ_BUFF_SIZE && off <= contentSize <= buff.Length
    }

    /** The bytes the reader's caller still has to see: what `Socket.data` is for the bare socket. */
    ghost function Pending(): string
      reads this, buff, sock
      requires Valid()
    {
      Buffered() + sock.data
    }

    /** `d` is what is pending: the buffer at its front, the rest of it in the socket. */
    ghost predicate Offers(d: string)
      reads this, buff, sock
      requires Valid()
    {
      var n := contentSize - off;
      |d| == n + |sock.data| && d[..n] == Buffered() && d[n..] == sock.data
    }

    lemma OffersPending(d: string)
      requires Valid()
      ensures Offers(d) <==> d == Pending()
    {
      if Offers(d) {
        assert d == d[..contentSize - off] + d[contentSize - off..];
      }
    }

    /** `memcpy` from the buffer, moving the offset. */
    method TakeBuffered(ptr: array<char>, size: nat)
      requires Valid() && ptr != buff && size <= ptr.Length && size <= contentSize - off
      modifies ptr, this`off, this`handed
      ensures Valid()
      ensures ptr[..size] == old(Buffered())[..size] && Buffered() == old(Buffered())[size..]
      ensures ptr[size..] == old(ptr[size..])
      ensures handed == old(handed) + ptr[..size]
    {
      ghost var was, rest := Buffered(), old(ptr[size..]);
      forall i | 0 <= i < size {
        ptr[i] := buff[off + i];
      }
      assert ptr[..size] == was[..size];
      off := off + size;
      handed := handed + ptr[..size];
      assert Buffered() == was[size..];
    }

    /** One `recv` into the empty buffer. */
    method Fill() returns (n: int)
      requires Valid() && Buffered() == ""
      modifies buff, sock`data, this`off, this`contentSize
      ensures Valid() && off == 0
      ensures n == -1 ==> !sock.reliable && contentSize == 0 && sock.data == old(sock.data)
      ensures n != -1 ==> 0 <= n <= READ_BUFF_SIZE && n == contentSize && Pending() == old(Pending())
      ensures n == 0 ==> old(sock.data) == ""
    {
      off, contentSize := 0, 0;
      var bytes;
      n, bytes := sock.Receive(READ_BUFF_SIZE);
      if n > 0 {
        contentSize := n;
        forall i | 0 <= i < n {
          buff[i] := bytes[i];
        }
        assert buff[0..n] == bytes;
      }
    }

    /** One `recv` straight into the caller's memory, the buffer being empty. */
    method Direct(ptr: array<char>, size: nat) returns (n: int)
      requires Valid() && Buffered() == "" && size <= ptr.Length && ptr != buff
      modifies ptr, sock`data, this`handed
      ensures Valid()
      ensures n == -1 ==> !sock.reliable && handed == old(handed) && sock.data == old(sock.data)
      ensures n != -1 ==> 0 <= n <= size && handed == old(handed) + ptr[..n]
      ensures n != -1 ==> ptr[..n] + sock.data == old(sock.data)
      ensures ptr[if n < 0 then 0 else n..] == old(ptr[..])[if n < 0 then 0 else n..]
      ensures n == 0 ==> size == 0 || old(sock.data) == ""
    {
      var bytes;
      n, bytes := sock.Receive(size);
      if n != -1 {
        forall i | 0 <= i < n {
          ptr[i] := bytes[i];
        }
        assert ptr[..n] == bytes;
        handed := handed + bytes;
      }
    }

    /**
     `read`: exactly what `Socket.Receive` promises, of `Pending()` instead of `data`; the memory
     beyond the bytes read is untouched.
     */
    method Read(ptr: array<char>, size0: nat) returns (n: int)
      requires Valid() && size0 <= ptr.Length && ptr != buff
      modifies ptr, buff, sock`data, this`off, this`contentSize, this`handed
      ensures Valid()
      ensures n == -1 ==> !sock.reliable && Pending() == old(Pending()) && handed == old(handed)
      ensures n != -1 ==> 0 <= n <= size0 && n <= |old(Pending())|
      ensures n != -1 ==> ptr[..n] == old(Pending())[..n] && Pending() == old(Pending())[n..]
      ensures n != -1 ==> handed == old(handed) + ptr[..n]
      ensures handed + Pending() == old(handed + Pending())
      ensures n == 0 ==> size0 == 0 || old(Pending()) == ""
      ensures ptr[if n < 0 then 0 else n..] == old(ptr[..])[if n < 0 then 0 else n..]
    {
      var size := if size0 <= SSIZE_MAX then size0 else SSIZE_MAX;
      NothingLost(handed, Pending());
      if off < contentSize {
        n := contentSize - off;
        if size <= n {
          n := size;
        }
        TakeBuffered(ptr, n);
        FrontOf(old(Buffered()), n, sock.data);
        return;
      }
      if !sock.reliable {
        if * {
          return -1; // wait_readable fails
        }
      }
      if size < READ_BUFF_SIZE {
        n := Fill();
        if n > 0 {
          n := if n <= size then n else size;
          ghost var got := Buffered();
          TakeBuffered(ptr, n);
          FrontOf(got, n, sock.data);
        }
      } else {
        n := Direct(ptr, size);
      }
    }
  }

  /**
   What the codecs read from: a bare socket, whose reads are short in any pattern, or the buffered
   reader above it.  `data` is what is still to be read either way.
   */
  class Stream {
    const sock: Socket
    const buffered: SocketStream?
    const reliable: bool
    ghost const Repr: set<object>
    ghost var data: string

    ghost predicate Valid()
      reads this, Repr
    {
      && this in Repr && sock in Repr && reliable == sock.reliable
      && if buffered == null then data == sock.data
         else
           && buffered in Repr && buffered.buff in Repr
           && buffered.sock == sock && buffered.Valid() && buffered.Offers(data)
    }

    constructor (sock: Socket, buffering: bool)
      ensures Valid() && this.sock == sock && data == sock.data && fresh(Repr - {sock})
    {
      this.sock, reliable, data := sock, sock.reliable, sock.data;
      if buffering {
        var s := new SocketStream(sock);
        buffered, Repr := s, {this, sock, s, s.buff};
      } else {
        buffered, Repr := null, {this, sock};
      }
      new;
      assert "" + sock.data == sock.data;
    }

    method Read(size: nat) returns (n: int, bytes: string)
      requires Valid()
      modifies Repr
      ensures Valid()
      ensures n == -1 ==> !reliable && data == old(data)
      ensures n != -1 ==> 0 <= n <= size && n <= |old(data)|
      ensures n != -1 ==> bytes == old(data)[..n] && data == old(data)[n..]
      ensures n == 0 ==> size == 0 || old(data) == ""
    {
      if buffered == null {
        n, bytes := sock.Receive(size);
        data := sock.data;
      } else {
        var ptr := new char[size](_ => '\0');
        buffered.OffersPending(data);
        n := buffered.Read(ptr, size);
        bytes := if n < 0 then "" else ptr[..n];
        data := buffered.Pending();
        buffered.OffersPending(data);
      }
    }
  }

  lemma NothingLost(handed: string, pending: string)
    ensures forall k :: 0 <= k <= |pending| ==> handed + pending[..k] + pending[k..] == handed + pending
  {
    forall k | 0 <= k <= |pending|
      ensures handed + pending[..k] + pending[k..] == handed + pending
    {
      assert pending == pending[..k] + pending[k..];
    }
  }

  lemma FrontOf(b: string, k: nat, d: string)
    requires k <= |b|
    ensures (b + d)[..k] == b[..k] && (b + d)[k..] == b[k..] + d
  {
  }

  /** What has been read and is to be read, and what the reader has handed out for it. */
  ghost function Account(handed: string, out: string, pending: string): (string, string) {
    (out + pending, handed + out)
  }

  /** One more read of a run takes `n` bytes of what was pending. */
  lemma Advance(handed: string, out: string, pending: string, n: nat)
    requires n <= |pending|
    ensures Account(handed, out + pending[..n], pending[n..])
         == (Account(handed, out, pending).0, Account(handed, out, pending).1 + pending[..n])
  {
    assert pending == pending[..n] + pending[n..];
    assert out + pending[..n] + pending[n..] == out + (pending[..n] + pending[n..]);
    assert handed + (out + pending[..n]) == handed + out + pending[..n];
  }

  /** Reads of any sizes, into one array, until one fails: what they return, in order. */
  method ReadRun(s: SocketStream, ptr: array<char>, sizes: seq<nat>) returns (out: string)
    requires s.Valid() && ptr != s.buff && forall i :: 0 <= i < |sizes| ==> sizes[i] <= ptr.Length
    modifies ptr, s.buff, s.sock`data, s`off, s`contentSize, s`handed
    ensures s.Valid() && out + s.Pending() == old(s.Pending())
    ensures s.handed == old(s.handed) + out
  {
    out := "";
    ghost var goal, handed := s.Pending(), s.handed;
    var i, n := 0, 0;
    assert "" + goal == goal && handed + "" == handed;
    while i < |sizes| && n != -1
      invariant 0 <= i <= |sizes|
      invariant s.Valid() && Account(handed, out, s.Pending()) == (goal, s.handed)
    {
      ghost var before := s.Pending();
      n := s.Read(ptr, sizes[i]);
      if n != -1 {
        Advance(handed, out, before, n);
        out := out + ptr[..n];
      }
      i := i + 1;
    }
  }
}
