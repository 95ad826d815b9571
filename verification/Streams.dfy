/** Buffered reading and blocking writes: std::ifstream::read with gcount, and the write loops of
    src/server.cpp. */
module Streams {
  import opened Common

  /** A binary ifstream: a read that comes up short clears `good`, the stream's truth value. */
  class InputStream {
    const data: seq<byte>
    var pos: nat
    var good: bool

    ghost predicate Valid()
      reads this
    {
      pos <= |data| && (!good ==> pos == |data|)
    }

    constructor (contents: seq<byte>)
      ensures Valid() && data == contents && pos == 0 && good
    {
      data := contents;
      pos := 0;
      good := true;
    }

    method Read(buffer: array<byte>) returns (count: nat)
      requires Valid()
      modifies this, buffer
      ensures Valid()
      ensures count <= buffer.Length && pos == old(pos) + count
      ensures buffer[..count] == data[old(pos)..pos]
      ensures good == (count == buffer.Length)
    {
      count := 0;
      while count < buffer.Length && pos + count < |data|
        invariant count <= buffer.Length && pos == old(pos) && pos + count <= |data|
        invariant buffer[..count] == data[pos..pos + count]
      {
        buffer[count] := data[pos + count];
        count := count + 1;
      }
      pos := pos + count;
      good := count == buffer.Length;
    }
  }

  /** The copy loop of merge_chunks: read a buffer, append what was read, until the stream ends. */
  method CopyThrough(contents: seq<byte>, buffer: array<byte>) returns (output: seq<byte>)
    requires buffer.Length > 0
    modifies buffer
    ensures output == contents
  {
    var input := new InputStream(contents);
    output := [];
    while input.good
      invariant fresh(input) && input.Valid() && input.data == contents
      invariant output == contents[..input.pos]
      decreases |contents| - input.pos, input.good
    {
      ghost var from := input.pos;
      var count := input.Read(buffer);
      if count > 0 {
        output := output + buffer[..count];
      }
      assert contents[..input.pos] == contents[..from] + buffer[..count];
    }
  }

  /** A socket whose successive write calls return what `script` says: at most the given number of
      bytes is taken, and a value that is not positive is an error. */
  class Socket {
    var sent: seq<byte>
    var script: seq<int>
    ghost var broken: bool

    constructor (answers: seq<int>)
      ensures sent == [] && !broken && script == answers
    {
      sent := [];
      script := answers;
      broken := false;
    }

    method Write(buf: seq<byte>) returns (n: int)
      modifies this
      ensures n <= |buf|
      ensures n > 0 ==> sent == old(sent) + buf[..n] && broken == old(broken)
      ensures n <= 0 ==> sent == old(sent) && broken
    {
      n := if script == [] then -1 else if script[0] <= |buf| then script[0] else |buf|;
      if script != [] {
        script := script[1..];
      }
      if n > 0 {
        sent := sent + buf[..n];
      } else {
        broken := true;
      }
    }
  }

  /** write_all: everything goes out, however the writes are cut short, unless one of them fails; then
      what went out is a proper prefix. */
  method WriteAll(sock: Socket, data: seq<byte>) returns (ok: bool)
    requires !sock.broken
    modifies sock
    ensures ok == !sock.broken
    ensures ok ==> sock.sent == old(sock.sent) + data
    ensures !ok ==> exists k | 0 <= k < |data| :: sock.sent == old(sock.sent) + data[..k]
  {
    var written := 0;
    while written < |data|
      invariant 0 <= written <= |data| && !sock.broken
      invariant sock.sent == old(sock.sent) + data[..written]
    {
      var n := sock.Write(data[written..]);
      if n <= 0 {
        return false;
      }
      assert data[..written + n] == data[..written] + data[written..][..n];
      written := written + n;
    }
    return true;
  }

  lemma PrefixGrows(sent: seq<byte>, contents: seq<byte>, from: nat, n: nat, k: nat)
    requires k <= n && from + n <= |contents|
    ensures sent + contents[..from] + contents[from..from + n][..k] == sent + contents[..from + k]
  {
    assert contents[..from + k] == contents[..from] + contents[from..from + n][..k];
  }

  /** The download loop: for every buffer size the client receives the file's bytes in order, all of
      them or a proper prefix, and a prefix only when a write failed. */
  method StreamFile(sock: Socket, contents: seq<byte>, bufferSize: nat) returns (ok: bool)
    requires !sock.broken && bufferSize > 0
    modifies sock
    ensures ok == !sock.broken
    ensures ok ==> sock.sent == old(sock.sent) + contents
    ensures !ok ==> exists k | 0 <= k < |contents| :: sock.sent == old(sock.sent) + contents[..k]
  {
    var input := new InputStream(contents);
    var buffer := new byte[bufferSize];
    while input.good
      invariant fresh(input) && fresh(buffer) && input.Valid() && input.data == contents && !sock.broken
      invariant sock.sent == old(sock.sent) + contents[..input.pos]
      decreases |contents| - input.pos, input.good
    {
      ghost var from := input.pos;
      var n := input.Read(buffer);
      if n <= 0 {
        break;
      }
      ghost var sent := sock.sent;
      ok := WriteAll(sock, buffer[..n]);
      if !ok {
        ghost var k :| 0 <= k < n && sock.sent == sent + buffer[..n][..k];
        PrefixGrows(old(sock.sent), contents, from, n, k);
        return false;
      }
      PrefixGrows(old(sock.sent), contents, from, n, n);
    }
    assert contents[..input.pos] == contents;
    return true;
  }
}
