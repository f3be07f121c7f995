/**
 The robust I/O functions of csapp.c that the chat programs use.

 The kernel is an oracle: every read or write takes the next outcome of a script, which may be
 an interruption, an error, or a transfer of at most so many bytes.  What is proved holds for
 every script, so for all sizes and any finite number of interruptions.
 */
module Rio {

  const RIO_BUFSIZE: nat := 8192

  /** A transfer of at most limit + 1 bytes, EINTR, or another error. */
  datatype Outcome = Chunk(limit: nat) | Interrupted | Failed

  predicate NoFailure(script: seq<Outcome>) {
    Failed !in script
  }

  function Min(a: nat, b: nat): (m: nat) {
    if a <= b then a else b
  }

  function Granted(script: seq<Outcome>, n: nat): (k: nat)
    ensures n > 0 ==> 0 < k <= n
    ensures n == 0 ==> k == 0
  {
    if script != [] && script[0].Chunk? then Min(script[0].limit + 1, n) else n
  }

  /** An open file descriptor: the bytes that will still arrive before EOF, and the bytes sent. */
  class Descriptor {
    var pending: string
    var sent: string
    var readScript: seq<Outcome>
    var writeScript: seq<Outcome>

    constructor (pending: string, readScript: seq<Outcome>, writeScript: seq<Outcome>)
      ensures this.pending == pending && this.sent == [] && this.readScript == readScript
          && this.writeScript == writeScript
    {
      this.pending, this.sent, this.readScript, this.writeScript := pending, [], readScript, writeScript;
    }

    /** read(fd, buf, n): a count below 0 is an error, and eintr tells whether errno is EINTR. */
    method Read(n: nat) returns (count: int, bytes: string, eintr: bool)
      requires n > 0
      modifies this`pending, this`readScript
      ensures count < 0 ==> pending == old(pending) && old(readScript) != [] && readScript == old(readScript)[1..]
                            && old(readScript)[0] == if eintr then Interrupted else Failed
      ensures count >= 0 ==> count == |bytes| <= n && old(pending) == bytes + pending
      ensures count == 0 <==> old(pending) == [] && count >= 0
      ensures count >= 0 ==> readScript == if old(readScript) == [] then [] else old(readScript)[1..]
    {
      var head := if readScript == [] then Chunk(n) else readScript[0];
      eintr := head.Interrupted?;
      if head.Chunk? {
        var k := Min(Granted(readScript, n), |pending|);
        count, bytes := k, pending[..k];
        pending := pending[k..];
      } else {
        count, bytes := -1, [];
      }
      readScript := if readScript == [] then [] else readScript[1..];
    }

    /** write(fd, bytes, |bytes|) of at least one byte; a count of 0 or less fails or asks for another try. */
    method Write(bytes: string) returns (count: int, eintr: bool)
      requires bytes != []
      modifies this`sent, this`writeScript
      ensures count <= 0 ==> sent == old(sent) && old(writeScript) != [] && writeScript == old(writeScript)[1..]
                             && old(writeScript)[0] == if eintr then Interrupted else Failed
      ensures count > 0 ==> count <= |bytes| && sent == old(sent) + bytes[..count]
      ensures count > 0 ==> writeScript == if old(writeScript) == [] then [] else old(writeScript)[1..]
    {
      var head := if writeScript == [] then Chunk(|bytes|) else writeScript[0];
      eintr := head.Interrupted?;
      if head.Chunk? {
        count := Granted(writeScript, |bytes|);
        sent := sent + bytes[..count];
      } else {
        count := -1;
      }
      writeScript := if writeScript == [] then [] else writeScript[1..];
    }
  }

  // ----- writing

  method WriteN(fd: Descriptor, usrbuf: array<char>, n: nat) returns (rc: int)
    requires n <= usrbuf.Length
    modifies fd`sent, fd`writeScript
    ensures rc == n || rc == -1
    ensures rc == n ==> fd.sent == old(fd.sent) + usrbuf[..n]
    ensures rc == -1 ==> exists k :: 0 <= k < n && fd.sent == old(fd.sent) + usrbuf[..k]
    ensures NoFailure(old(fd.writeScript)) ==> rc == n && NoFailure(fd.writeScript)
  {
    var nleft, bufp := n, 0;
    while nleft > 0
      invariant 0 <= bufp && nleft >= 0 && bufp + nleft == n
      invariant fd.sent == old(fd.sent) + usrbuf[..bufp]
      invariant NoFailure(old(fd.writeScript)) ==> NoFailure(fd.writeScript)
      decreases nleft, |fd.writeScript|
    {
      var nwritten, eintr := fd.Write(usrbuf[bufp..bufp + nleft]);
      if nwritten <= 0 {
        if eintr {
          nwritten := 0;
        } else {
          return -1;
        }
      }
      nleft := nleft - nwritten;
      bufp := bufp + nwritten;
    }
    return n;
  }

  // ----- buffered reading

  /** The length of the next line: through the newline, or maxlen - 1 bytes, or to the end. */
  function LineLength(s: string, maxlen: nat): (n: nat)
    ensures n <= |s|
    ensures n < maxlen || n == 0
  {
    if s == [] || maxlen <= 1 then 0
    else if s[0] == '\n' then 1
    else 1 + LineLength(s[1..], maxlen - 1)
  }

  /** The line length without recursion: the only cut that respects newline, size limit and end. */
  predicate IsLineCut(s: string, maxlen: nat, n: nat) {
    && n <= |s| && (n == 0 || n < maxlen)
    && (forall i | 0 <= i < n - 1 :: s[i] != '\n')
    && (n == |s| || n + 1 >= maxlen || (n > 0 && s[n - 1] == '\n'))
  }

  lemma {:induction false} LineLengthExact(s: string, maxlen: nat, n: nat)
    ensures IsLineCut(s, maxlen, n) <==> n == LineLength(s, maxlen)
    decreases |s|
  {
    if s != [] && maxlen > 1 && s[0] != '\n' {
      if n > 0 {
        LineLengthExact(s[1..], maxlen - 1, n - 1);
        assert forall i | 0 <= i < n - 1 && i < |s| - 1 :: s[i + 1] == s[1..][i];
        assert n <= |s| ==>
          ((forall i | 0 <= i < n - 1 :: s[i] != '\n') <==> (forall i | 0 <= i < n - 2 :: s[1..][i] != '\n'));
      }
    }
  }

  /** What successive calls of rio_readlineb return for a stream. */
  function Lines(s: string, maxlen: nat): (lines: seq<string>)
    requires maxlen > 1
    decreases |s|
  {
    if s == [] then []
    else
      var n := LineLength(s, maxlen);
      [s[..n]] + Lines(s[n..], maxlen)
  }

  function Concat(lines: seq<string>): (s: string) {
    if lines == [] then [] else lines[0] + Concat(lines[1..])
  }

  lemma ConcatCons(line: string, lines: seq<string>)
    ensures Concat([line] + lines) == line + Concat(lines)
  {
    assert ([line] + lines)[1..] == lines;
  }

  lemma LinesCons(s: string, maxlen: nat, n: nat)
    requires maxlen > 1 && s != [] && n == LineLength(s, maxlen)
    ensures 0 < n <= |s| && Lines(s, maxlen) == [s[..n]] + Lines(s[n..], maxlen)
  {
  }

  lemma NoLines(maxlen: nat)
    requires maxlen > 1
    ensures Lines([], maxlen) == []
  {
  }

  /** No byte is lost, repeated or moved by cutting the stream into lines. */
  lemma {:induction false} LinesConcat(s: string, maxlen: nat)
    requires maxlen > 1
    ensures Concat(Lines(s, maxlen)) == s
    decreases |s|
  {
    if s != [] {
      hide LineLength;
      var n := LineLength(s, maxlen);
      LinesCons(s, maxlen, n);
      LinesConcat(s[n..], maxlen);
      ConcatCons(s[..n], Lines(s[n..], maxlen));
      assert s == s[..n] + s[n..];
    }
  }

  lemma LineStep(s: string, k: nat, maxlen: nat)
    requires k <= |s| && maxlen > 0
    ensures k < |s| && maxlen > 1 ==>
      LineLength(s[k..], maxlen) == if s[k] == '\n' then 1 else 1 + LineLength(s[k + 1..], maxlen - 1)
    ensures k == |s| || maxlen == 1 ==> LineLength(s[k..], maxlen) == 0
  {
    if k < |s| { assert s[k..][1..] == s[k + 1..]; }
  }

  /** A rio_t. */
  class RioBuffer {
    const fd: Descriptor
    const buf: array<char>
    var cnt: int
    var bufptr: nat

    ghost predicate Valid()
      reads this
    {
      && buf.Length == RIO_BUFSIZE
      && cnt <= RIO_BUFSIZE
      && (cnt > 0 ==> bufptr + cnt <= RIO_BUFSIZE)
    }

    /** The rest of the byte stream: what is buffered and unread, and what the descriptor still holds. */
    ghost function Remaining(): (s: string)
      requires Valid()
      reads this, buf, fd`pending
    {
      (if cnt > 0 then buf[bufptr..bufptr + cnt] else []) + fd.pending
    }

    /** rio_readinitb */
    constructor (fd: Descriptor)
      ensures Valid() && this.fd == fd && fresh(buf) && cnt == 0
      ensures Remaining() == fd.pending
    {
      this.fd := fd;
      cnt := 0;
      bufptr := 0;
      buf := new char[RIO_BUFSIZE];
    }

    /** The while loop of rio_read. */
    method Refill() returns (rc: int)
      requires Valid()
      modifies this, buf, fd`pending, fd`readScript
      ensures Valid() && Remaining() == old(Remaining())
      ensures rc > 0 ==> cnt > 0
      ensures rc == 0 ==> Remaining() == []
      ensures |fd.readScript| <= |old(fd.readScript)|
      ensures NoFailure(old(fd.readScript)) ==> rc >= 0 && NoFailure(fd.readScript)
    {
      while cnt <= 0
        invariant Valid() && Remaining() == old(Remaining())
        invariant |fd.readScript| <= |old(fd.readScript)|
        invariant NoFailure(old(fd.readScript)) ==> NoFailure(fd.readScript)
        decreases |fd.readScript|, if cnt <= 0 then 1 else 0
      {
        var count, bytes, eintr := fd.Read(buf.Length);
        cnt := count;
        if cnt < 0 {
          if !eintr {
            return -1;
          }
        } else if cnt == 0 {
          return 0;
        } else {
          forall i | 0 <= i < cnt {
            buf[i] := bytes[i];
          }
          bufptr := 0;
          assert buf[0..cnt] == bytes;
        }
      }
      return 1;
    }

    /** rio_read: the result is negative on an error, and otherwise the number of bytes delivered. */
    method Read(n: nat) returns (rc: int, bytes: string)
      requires Valid() && n > 0
      modifies this, buf, fd`pending, fd`readScript
      ensures Valid()
      ensures rc >= 0 ==> rc == |bytes| <= n && old(Remaining()) == bytes + Remaining()
      ensures rc == 0 ==> old(Remaining()) == []
      ensures rc < 0 ==> Remaining() == old(Remaining())
      ensures NoFailure(old(fd.readScript)) ==> rc >= 0 && NoFailure(fd.readScript)
    {
      bytes := [];
      rc := Refill();
      if rc <= 0 {
        return;
      }
      var count := n;
      if cnt < n {
        count := cnt;
      }
      bytes := buf[bufptr..bufptr + count];
      bufptr := bufptr + count;
      cnt := cnt - count;
      rc := count;
    }

    /**
     rio_readlineb: delivers the next line of the stream, whatever the sizes of the reads were;
     after an error the bytes taken so far are gone.
     */
    method ReadLineB(usrbuf: array<char>, maxlen: nat) returns (rc: int)
      requires Valid() && 0 < maxlen <= usrbuf.Length && usrbuf != buf
      modifies this, buf, fd`pending, fd`readScript, usrbuf
      ensures Valid()
      ensures rc >= 0 ==> rc == LineLength(old(Remaining()), maxlen)
                          && usrbuf[..rc] == old(Remaining())[..rc] && Remaining() == old(Remaining())[rc..]
      ensures rc > 0 ==> rc < usrbuf.Length && usrbuf[rc] == '\0'
      ensures rc < 0 ==>
                exists k :: 0 <= k <= LineLength(old(Remaining()), maxlen) && Remaining() == old(Remaining())[k..]
      ensures NoFailure(old(fd.readScript)) ==> rc >= 0 && NoFailure(fd.readScript)
    {
      hide Remaining, LineLength;
      ghost var stream := Remaining();
      assert stream[0..] == stream;
      var n, bufp := 1, 0;
      while n < maxlen
        invariant Valid() && 1 <= n <= maxlen && bufp == n - 1 <= |stream|
        invariant usrbuf[..bufp] == stream[..bufp] && Remaining() == stream[bufp..]
        invariant LineLength(stream, maxlen) == bufp + LineLength(stream[bufp..], maxlen - bufp)
        invariant NoFailure(old(fd.readScript)) ==> NoFailure(fd.readScript)
        decreases maxlen - n
      {
        var c;
        LineStep(stream, bufp, maxlen - bufp);
        rc, c := Read(1);
        if rc == 1 {
          assert stream[bufp..][0] == c[0] && Remaining() == stream[bufp..][1..];
          assert Remaining() == stream[bufp + 1..];
          usrbuf[bufp] := c[0];
          bufp := bufp + 1;
          if c[0] == '\n' {
            n := n + 1;
            break;
          }
        } else if rc == 0 {
          if n == 1 {
            return 0;
          } else {
            break;
          }
        } else {
          return -1;
        }
        n := n + 1;
      }
      LineStep(stream, bufp, maxlen - bufp);
      usrbuf[bufp] := '\0';
      return n - 1;
    }
  }

  /** Successive calls until one delivers nothing: the lines are those of the pure splitter. */
  method ReadLines(rio: RioBuffer, usrbuf: array<char>, maxlen: nat) returns (lines: seq<string>, rc: int)
    requires rio.Valid() && 1 < maxlen <= usrbuf.Length && usrbuf != rio.buf
    modifies rio, rio.buf, rio.fd`pending, rio.fd`readScript, usrbuf
    ensures rc <= 0 && rio.Valid()
    ensures rc == 0 ==> lines == Lines(old(rio.Remaining()), maxlen) && rio.Remaining() == []
    ensures rc < 0 ==> lines <= Lines(old(rio.Remaining()), maxlen)
    ensures NoFailure(old(rio.fd.readScript)) ==> rc == 0
  {
    hide LineLength, Lines;
    ghost var stream := rio.Remaining();
    NoLines(maxlen);
    lines, rc := [], 1;
    while rc > 0
      invariant rio.Valid()
      invariant rc >= 0 ==> Lines(stream, maxlen) == lines + Lines(rio.Remaining(), maxlen)
      invariant rc == 0 ==> rio.Remaining() == []
      invariant rc < 0 ==> lines <= Lines(stream, maxlen)
      invariant NoFailure(old(rio.fd.readScript)) ==> rc >= 0 && NoFailure(rio.fd.readScript)
      decreases if rc > 0 then 1 + |rio.Remaining()| else 0
    {
      ghost var rest := rio.Remaining();
      rc := rio.ReadLineB(usrbuf, maxlen);
      if rest != [] { LinesCons(rest, maxlen, LineLength(rest, maxlen)); }
      if rc > 0 {
        lines := lines + [usrbuf[..rc]];
      }
    }
  }
}
