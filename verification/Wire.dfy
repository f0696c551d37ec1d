/** A byte stream read in arbitrary pieces, and the reading loops built on it. */
module Wire {
  import opened Util

  const CHUNK_SIZE := 65536

  datatype ReadResult = Data(bytes: string) | Interrupted | EndOfStream | Broken

  /** The receiving end of a connection: what the peer has sent and will send before it closes.
      How much a single read returns, whether a signal interrupts it, and whether it or a file
      operation of the server fails for good, is arbitrary. */
  class Stream {
    var pending: string
    var interrupts: nat   // signals still to arrive
    var failures: nat     // hard errors, of the connection or the disk, still to come

    constructor (contents: string, interrupts: nat, failures: nat)
      ensures pending == contents && this.failures == failures
    {
      pending, this.interrupts, this.failures := contents, interrupts, failures;
    }

    method Read(want: nat) returns (r: ReadResult)
      requires want > 0
      modifies this
      ensures r.Data? ==>
        0 < |r.bytes| <= want && old(pending) == r.bytes + pending && interrupts == old(interrupts)
      ensures r.Interrupted? ==> pending == old(pending) && interrupts < old(interrupts)
      ensures r.EndOfStream? ==> old(pending) == pending == ""
      ensures r.Broken? ==> pending == old(pending)
      ensures if r.Broken? then failures < old(failures) else failures == old(failures)
    {
      if interrupts > 0 {
        var now: bool := *;
        if now {
          interrupts := interrupts - 1;
          return Interrupted;
        }
      }
      var broken := Fails();
      if broken {
        return Broken;
      }
      if pending == "" {
        return EndOfStream;
      }
      var most := Min(want, |pending|);
      var n: nat :| 0 < n <= most;
      r := Data(pending[..n]);
      pending := pending[n..];
    }

    /** Whether an operation fails here. */
    method Fails() returns (fails: bool)
      modifies this`failures
      ensures if fails then failures < old(failures) else failures == old(failures)
    {
      fails := false;
      if failures > 0 {
        fails := *;
        if fails {
          failures := failures - 1;
        }
      }
    }
  }

  /** The length of the line at the front of `s`: through its first newline, at most `limit` characters. */
  function LineLength(s: string, limit: nat): (n: nat)
    ensures n <= |s| && n <= limit
    decreases limit
  {
    if s == "" || limit == 0 then 0
    else if s[0] == '\n' then 1
    else 1 + LineLength(s[1..], limit - 1)
  }

  /** A line has no newline before its end, and ends at one unless the stream or the limit ends it. */
  lemma {:induction false} LineShape(s: string, limit: nat)
    ensures var n := LineLength(s, limit);
      (forall i :: 0 <= i < n - 1 ==> s[i] != '\n') && (n == |s| || n == limit || (n > 0 && s[n - 1] == '\n'))
    decreases limit
  {
    if s != "" && limit != 0 && s[0] != '\n' {
      LineShape(s[1..], limit - 1);
      var n := LineLength(s, limit);
      forall i | 0 <= i < n - 1
        ensures s[i] != '\n'
      {
        assert i > 0 ==> s[i] == s[1..][i - 1];
      }
      assert n > 1 ==> s[n - 1] == s[1..][n - 2];
    }
  }

  lemma {:induction false} WholeLine(line: string, rest: string, limit: nat)
    requires '\n' !in line && |line| < limit
    ensures LineLength(line + "\n" + rest, limit) == |line| + 1
    decreases |line|
  {
    var s := line + "\n" + rest;
    if line != "" {
      assert s[1..] == line[1..] + "\n" + rest;
      WholeLine(line[1..], rest, limit - 1);
    }
  }

  lemma LineStep(c: char, rest: string, limit: nat)
    requires limit > 0
    ensures LineLength([c] + rest, limit) == 1 + if c == '\n' then 0 else LineLength(rest, limit - 1)
  {
    assert ([c] + rest)[1..] == rest;
  }

  lemma LineEnd(s: string, limit: nat)
    requires s == "" || limit == 0
    ensures LineLength(s, limit) == 0
  {
  }

  /** What is left of `s` after taking something off its front. */
  predicate EndOf(t: string, s: string) {
    |t| <= |s| && t == s[|s| - |t|..]
  }

  lemma Rest(front: string, t: string)
    ensures EndOf(t, front + t) && (front + t)[..|front|] == front && (front + t)[|front|..] == t
  {
  }

  lemma Moved(front: string, bytes: string, t: string)
    ensures front + (bytes + t) == (front + bytes) + t
  {
  }

  /** Reads one line, a character at a time, into a buffer of `bufferSize`. Only a hard error
      makes it fail; the part already read is then lost. */
  method ReadLine(s: Stream, bufferSize: nat) returns (ok: bool, line: string)
    requires bufferSize > 0
    modifies s
    ensures s.failures <= old(s.failures) && ok == (s.failures == old(s.failures))
    ensures ok ==>
      var n := LineLength(old(s.pending), bufferSize - 1);
      line == old(s.pending)[..n] && s.pending == old(s.pending)[n..]
    ensures !ok ==> line == "" && EndOf(s.pending, old(s.pending))
  {
    hide LineLength, EndOf;
    line := "";
    ghost var before := s.pending;
    ghost var n := LineLength(before, bufferSize - 1);
    while |line| + 1 < bufferSize
      invariant |line| < bufferSize && s.failures == old(s.failures)
      invariant before == line + s.pending
      invariant n == |line| + LineLength(s.pending, bufferSize - 1 - |line|)
      decreases bufferSize - |line|, s.interrupts
    {
      var r := s.Read(1);
      if r.Broken? {
        Rest(line, s.pending);
        return false, "";
      }
      if r.EndOfStream? {
        LineEnd(s.pending, bufferSize - 1 - |line|);
        break;
      }
      if r.Data? {
        LineStep(r.bytes[0], s.pending, bufferSize - 1 - |line|);
        assert r.bytes == [r.bytes[0]];
        Moved(line, r.bytes, s.pending);
        line := line + r.bytes;
        if r.bytes[0] == '\n' {
          break;
        }
      }
    }
    if |line| + 1 == bufferSize {
      LineEnd(s.pending, 0);
    }
    Rest(line, s.pending);
    ok := true;
  }

  /** Reads exactly `size` bytes, fewer only at the end of the stream. */
  method ReadExact(s: Stream, size: nat) returns (ok: bool, data: string)
    modifies s
    ensures s.failures <= old(s.failures) && ok == (s.failures == old(s.failures))
    ensures ok ==>
      var n := Min(size, |old(s.pending)|);
      data == old(s.pending)[..n] && s.pending == old(s.pending)[n..]
    ensures !ok ==> data == "" && EndOf(s.pending, old(s.pending))
  {
    hide EndOf;
    data := "";
    ghost var before := s.pending;
    while |data| < size
      invariant |data| <= size && s.failures == old(s.failures)
      invariant before == data + s.pending
      decreases size - |data|, s.interrupts
    {
      var r := s.Read(size - |data|);
      if r.Broken? {
        Rest(data, s.pending);
        return false, "";
      }
      if r.EndOfStream? {
        break;
      }
      if r.Data? {
        Moved(data, r.bytes, s.pending);
        data := data + r.bytes;
      }
    }
    Rest(data, s.pending);
    ok := true;
  }

  /** Reads and drops exactly `size` bytes, in chunks. */
  method DiscardExact(s: Stream, size: nat) returns (ok: bool)
    modifies s
    ensures s.failures <= old(s.failures)
    ensures if s.failures == old(s.failures)
      then ok == (size <= |old(s.pending)|) && s.pending == old(s.pending)[Min(size, |old(s.pending)|)..]
      else !ok && EndOf(s.pending, old(s.pending))
  {
    hide EndOf;
    var remaining := size;
    ghost var before, dropped := s.pending, "";
    assert "" + before == before;
    while remaining > 0
      invariant remaining == size - |dropped| >= 0 && s.failures == old(s.failures)
      invariant before == dropped + s.pending
      decreases remaining, s.interrupts
    {
      var r := s.Read(Min(remaining, CHUNK_SIZE));
      if r.Broken? || r.EndOfStream? {
        Rest(dropped, s.pending);
        return false;
      }
      if r.Data? {
        Moved(dropped, r.bytes, s.pending);
        dropped := dropped + r.bytes;
        remaining := remaining - |r.bytes|;
      }
    }
    Rest(dropped, s.pending);
    return true;
  }

  /** Receives exactly `size` bytes into a file, in chunks. When the stream ends early, or the
      connection or the file fails, the partial file is deleted. */
  method ReceiveToFile(s: Stream, size: nat) returns (ok: bool, file: string)
    modifies s
    ensures s.failures <= old(s.failures)
    ensures if s.failures == old(s.failures)
      then ok == (size <= |old(s.pending)|) && s.pending == old(s.pending)[Min(size, |old(s.pending)|)..]
      else !ok && EndOf(s.pending, old(s.pending))
    ensures file == if ok then old(s.pending)[..size] else ""
  {
    hide EndOf;
    file := "";
    ghost var before := s.pending;
    Rest("", s.pending);
    assert "" + before == before;
    var broken := s.Fails();
    if broken {
      return false, "";
    }
    var remaining := size;
    while remaining > 0
      invariant remaining == size - |file| >= 0 && s.failures == old(s.failures)
      invariant before == file + s.pending
      decreases remaining, s.interrupts
    {
      var r := s.Read(Min(remaining, CHUNK_SIZE));
      if r.Broken? || r.EndOfStream? {
        Rest(file, s.pending);
        return false, "";
      }
      if r.Data? {
        Moved(file, r.bytes, s.pending);
        file := file + r.bytes;
        broken := s.Fails();
        if broken {
          Rest(file, s.pending);
          return false, "";
        }
        remaining := remaining - |r.bytes|;
      }
    }
    Rest(file, s.pending);
    broken := s.Fails();
    if broken {
      return false, "";
    }
    return true, file;
  }

  datatype WriteResult = Taken(n: nat) | WriteInterrupted | WriteBroken

  /** The sending end: a write takes an arbitrary part of what it is given, possibly nothing. */
  class Sink {
    var sent: string
    var interrupts: nat
    var failures: nat   // hard errors and writes that take nothing, still to come

    constructor (interrupts: nat, failures: nat)
      ensures sent == "" && this.failures == failures
    {
      sent, this.interrupts, this.failures := "", interrupts, failures;
    }

    method Write(bytes: string) returns (r: WriteResult)
      requires bytes != ""
      modifies this
      ensures sent == old(sent) + if r.Taken? && r.n <= |bytes| then bytes[..r.n] else ""
      ensures r.Taken? ==> r.n <= |bytes| && interrupts == old(interrupts)
      ensures r.WriteInterrupted? ==> interrupts < old(interrupts)
      ensures if r.WriteBroken? || r == Taken(0) then failures < old(failures) else failures == old(failures)
    {
      if interrupts > 0 {
        var now: bool := *;
        if now {
          interrupts := interrupts - 1;
          return WriteInterrupted;
        }
      }
      if failures > 0 {
        var now, broken: bool := *, *;
        if now {
          failures := failures - 1;
          return if broken then WriteBroken else Taken(0);
        }
      }
      var n: nat :| 0 < n <= |bytes|;
      sent := sent + bytes[..n];
      return Taken(n);
    }
  }

  /** Writes the whole buffer, in order. It stops short only at a hard error, which it reports by
      -1, or at a write that takes nothing, when it reports how far it came. */
  method WriteAll(s: Sink, buffer: string) returns (written: int)
    modifies s
    ensures s.failures <= old(s.failures) && (s.failures == old(s.failures) ==> written == |buffer|)
    ensures -1 <= written <= |buffer|
    ensures written >= 0 ==> s.sent == old(s.sent) + buffer[..written]
    ensures written == -1 ==> old(s.sent) <= s.sent <= old(s.sent) + buffer
  {
    var total := 0;
    while total < |buffer|
      invariant total <= |buffer| && s.failures <= old(s.failures)
      invariant s.sent == old(s.sent) + buffer[..total]
      decreases |buffer| - total, s.interrupts
    {
      var r := s.Write(buffer[total..]);
      if r.WriteBroken? {
        return -1;
      }
      if r == Taken(0) {
        break;
      }
      if r.Taken? {
        assert buffer[..total + r.n] == buffer[..total] + buffer[total..][..r.n];
        total := total + r.n;
      }
    }
    written := total;
  }
}
