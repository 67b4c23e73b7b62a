/** The growable stream read buffer (src/buffer.rs), over a reader that may split the stream anywhere. */
module ReadBuffers {
  import opened Bytes

  /** What one `read` call can meet: bytes (at least one, taken as far as they fit), a signal, an expired
      timeout, or a transport failure. */
  datatype ReadEvent = Data(bytes: seq<byte>) | Interrupted | TimedOut | Broken

  /** The bytes a script delivers, whatever else happens between them. */
  function Wire(script: seq<ReadEvent>): seq<byte> {
    if script == [] then []
    else (if script[0].Data? then script[0].bytes else []) + Wire(script[1..])
  }

  /** No timeout and no transport failure: only the splitting is arbitrary. */
  predicate Clean(script: seq<ReadEvent>) {
    forall i :: 0 <= i < |script| ==> script[i].Data? || script[i].Interrupted?
  }

  /** Reads that remain, for termination: every read uses up a byte or an event. */
  function Remaining(script: seq<ReadEvent>): nat {
    |script| + |Wire(script)|
  }

  lemma {:induction false} WireConcat(a: seq<ReadEvent>, b: seq<ReadEvent>)
    ensures Wire(a + b) == Wire(a) + Wire(b)
  {
    if a == [] {
      assert a + b == b;
    } else {
      WireConcat(a[1..], b);
      assert (a + b)[1..] == a[1..] + b;
    }
  }

  /** The script behind a read of `n` of the bytes in front. */
  function Behind(script: seq<ReadEvent>, n: nat): seq<ReadEvent>
    requires script != [] && script[0].Data? && n <= |script[0].bytes|
  {
    if n == |script[0].bytes| then script[1..] else script[0 := Data(script[0].bytes[n..])]
  }

  lemma DeliversPart(script: seq<ReadEvent>, n: nat)
    requires script != [] && script[0].Data? && 0 < n <= |script[0].bytes|
    ensures Wire(script) == script[0].bytes[..n] + Wire(Behind(script, n))
    ensures Remaining(Behind(script, n)) < Remaining(script)
  {
    hide Clean, Wire;
    var bytes := script[0].bytes;
    WireOf(script, bytes, script[1..]);
    if n < |bytes| {
      assert bytes == bytes[..n] + bytes[n..];
      WireOf(Behind(script, n), bytes[n..], script[1..]);
      Associative(bytes[..n], bytes[n..], Wire(script[1..]));
    } else {
      assert bytes[..n] == bytes;
    }
  }

  lemma PartIsClean(script: seq<ReadEvent>, n: nat)
    requires script != [] && script[0].Data? && n <= |script[0].bytes|
    ensures Clean(script) ==> Clean(Behind(script, n))
  {
  }

  lemma WireOf(script: seq<ReadEvent>, bytes: seq<byte>, rest: seq<ReadEvent>)
    requires script == [Data(bytes)] + rest
    ensures Wire(script) == bytes + Wire(rest)
  {
    assert script[1..] == rest;
  }

  datatype ReadOutcome = Got(n: nat) | Failure(error: NzError) | Retry

  /** The stream a buffer reads from. An exhausted script is the end of the stream. */
  class Socket {
    var script: seq<ReadEvent>

    ghost predicate Valid()
      reads this
    {
      forall i :: 0 <= i < |script| && script[i].Data? ==> script[i].bytes != []
    }

    constructor (script: seq<ReadEvent>)
      requires forall i :: 0 <= i < |script| && script[i].Data? ==> script[i].bytes != []
      ensures Valid() && this.script == script
    {
      this.script := script;
    }

    /** `Read::read` into `buf[at..]`. Reading into an empty slice would return 0, which the driver takes for the
        end of the stream; the precondition says that it never does. */
    method Read(buf: array<byte>, at: nat) returns (r: ReadOutcome)
      requires Valid() && at < buf.Length
      modifies this, buf
      ensures Valid()
      ensures buf[..at] == old(buf[..at])
      ensures r.Got? ==> at + r.n <= buf.Length && old(Wire(script)) == buf[at..at + r.n] + Wire(script)
      ensures !r.Got? ==> Wire(script) == old(Wire(script))
      ensures r.Got? && r.n == 0 <==> old(script) == []
      ensures r.Got? && r.n == 0 ==> script == []
      ensures old(script) != [] ==> Remaining(script) < old(Remaining(script))
      ensures old(Clean(script)) ==> Clean(script) && !r.Failure?
      ensures r.Failure? ==> r.error == IoTimeout || r.error == Io
    {
      if script == [] {
        assert buf[at..at + 0] == [];
        return Got(0);
      }
      match script[0]
      case Data(bytes) =>
        var n := if |bytes| <= buf.Length - at then |bytes| else buf.Length - at;
        forall k | 0 <= k < n {
          buf[at + k] := bytes[k];
        }
        assert buf[at..at + n] == bytes[..n];
        DeliversPart(script, n);
        PartIsClean(script, n);
        script := Behind(script, n);
        r := Got(n);
      case Interrupted =>
        script := script[1..];
        r := Retry;
      case TimedOut =>
        script := script[1..];
        r := Failure(IoTimeout);
      case Broken =>
        script := script[1..];
        r := Failure(Io);
    }
  }

  const INITIAL := 65_536
  const SHRINK_LIMIT := 262_144

  /** `check_len`. */
  predicate LengthOk(n: nat) {
    n <= MAX_PROTOCOL_PAYLOAD
  }

  class ReadBuffer {
    var buf: array<byte>
    var start: nat
    var end: nat

    ghost predicate Valid()
      reads this
    {
      start <= end <= buf.Length
    }

    /** The bytes received and not yet consumed (`slice`). */
    ghost function Unread(): seq<byte>
      reads this, buf
      requires Valid()
    {
      buf[start..end]
    }

    /** Everything the stream will still deliver, received or not. */
    ghost function Rest(s: Socket): seq<byte>
      reads this, buf, s
      requires Valid()
    {
      Unread() + Wire(s.script)
    }

    constructor ()
      ensures Valid() && fresh(buf) && Unread() == []
    {
      buf := new byte[INITIAL](_ => 0);
      start, end := 0, 0;
    }

    method Available() returns (n: nat)
      requires Valid()
      ensures n == |Unread()|
    {
      n := end - start;
    }

    /** `slice`. */
    method Slice() returns (b: seq<byte>)
      requires Valid()
      ensures b == Unread()
    {
      b := buf[start..end];
    }

    /** `take`: the whole buffer moves out and nothing is left behind. */
    method Take() returns (moved: ReadBuffer)
      requires Valid()
      modifies this
      ensures Valid() && Unread() == [] && fresh(moved) && fresh(buf)
      ensures moved.Valid() && moved.Unread() == old(Unread()) && moved.buf == old(buf)
    {
      moved := new ReadBuffer();
      moved.buf, moved.start, moved.end := buf, start, end;
      buf := new byte[0](_ => 0);
      start, end := 0, 0;
    }

    /** `discard_leading_nulls`. */
    method DiscardLeadingNulls() returns (n: nat)
      requires Valid()
      modifies this`start
      ensures Valid()
      ensures n <= |old(Unread())| && AllNul(old(Unread())[..n]) && Unread() == old(Unread())[n..]
      ensures n < |old(Unread())| ==> old(Unread())[n] != 0
    {
      n := 0;
      while start < end && buf[start] == 0
        invariant start <= end && start == old(start) + n
        invariant AllNul(buf[old(start)..start])
      {
        start := start + 1;
        n := n + 1;
      }
      assert old(Unread())[..n] == buf[old(start)..start];
    }

    method EnsureCapacity(needed: nat)
      requires Valid()
      modifies this, buf
      ensures Valid() && (buf == old(buf) || fresh(buf))
      ensures Unread() == old(Unread())
      ensures buf.Length - end >= needed
      ensures buf.Length >= old(buf.Length)
    {
      var remaining := end - start;
      if buf.Length - end >= needed {
        return;
      }
      if buf.Length - remaining >= needed {
        ghost var unread := Unread();
        forall k | 0 <= k < remaining {
          buf[k] := buf[start + k];
        }
        assert buf[..remaining] == unread;
        start, end := 0, remaining;
        return;
      }
      var newSize := Max(Max(2 * buf.Length, remaining + needed), INITIAL);
      var grown := new byte[newSize](_ => 0);
      forall k | 0 <= k < remaining {
        grown[k] := buf[start + k];
      }
      assert grown[..remaining] == Unread();
      buf, start, end := grown, 0, remaining;
    }

    /** One `stream.read(&mut self.buf[self.end..])`, with what it returns kept. */
    method ReadMore(s: Socket) returns (got: ReadOutcome)
      requires Valid() && s.Valid() && end < buf.Length
      modifies this`end, buf, s
      ensures Valid() && s.Valid() && end >= old(end)
      ensures Rest(s) == old(Rest(s)) && old(Unread()) <= Unread()
      ensures |Unread()| == |old(Unread())| + (if got.Got? then got.n else 0)
      ensures got == Got(0) <==> old(s.script) == []
      ensures got == Got(0) ==> s.script == []
      ensures got != Got(0) ==> Remaining(s.script) < old(Remaining(s.script))
      ensures got.Failure? ==> got.error == IoTimeout || got.error == Io
      ensures old(Clean(s.script)) ==> Clean(s.script) && !got.Failure?
    {
      got := s.Read(buf, end);
      assert buf[..end][start..] == buf[start..end] == old(Unread());
      if got.Got? {
        assert buf[start..end + got.n] == buf[start..end] + buf[end..end + got.n];
        end := end + got.n;
      }
    }

    /** `pull_available`: everything the reader has ready, without blocking. */
    method PullAvailable(s: Socket) returns (r: Result<nat>)
      requires Valid() && s.Valid()
      modifies this, buf, s
      ensures Valid() && s.Valid() && (buf == old(buf) || fresh(buf))
      ensures Rest(s) == old(Rest(s)) && old(Unread()) <= Unread()
      ensures r.Ok? ==> |Unread()| == |old(Unread())| + r.value
      ensures Remaining(s.script) <= old(Remaining(s.script))
      ensures old(Clean(s.script)) ==> Clean(s.script)
    {
      var pulled := 0;
      while true
        invariant Valid() && s.Valid() && (buf == old(buf) || fresh(buf))
        invariant Rest(s) == old(Rest(s)) && old(Unread()) <= Unread()
        invariant |Unread()| == |old(Unread())| + pulled
        invariant Remaining(s.script) <= old(Remaining(s.script))
        invariant old(Clean(s.script)) ==> Clean(s.script)
        decreases Remaining(s.script)
      {
        EnsureCapacity(4096);
        var got := ReadMore(s);
        match got
        case Got(n) =>
          if n == 0 {
            break;
          }
          pulled := pulled + n;
        case Failure(error) =>
          if error == IoTimeout {
            break;
          }
          return Err(error);
        case Retry =>
          return Err(Io);
      }
      r := Ok(pulled);
    }

    /** `ensure_data`: at least `n` bytes received, reading as often as it takes. */
    method EnsureData(s: Socket, n: nat) returns (r: Result<()>)
      requires Valid() && s.Valid()
      modifies this, buf, s
      ensures Valid() && s.Valid() && (buf == old(buf) || fresh(buf))
      ensures Rest(s) == old(Rest(s)) && old(Unread()) <= Unread()
      ensures r.Ok? ==> LengthOk(n) && |Unread()| >= n
      ensures !LengthOk(n) ==> r == Err(Protocol)
      ensures r.Err? && LengthOk(n) ==> |Unread()| < n && r.error in {Closed, Io, IoTimeout}
      ensures r == Err(Closed) ==> |old(Rest(s))| < n
      ensures Remaining(s.script) <= old(Remaining(s.script))
      ensures LengthOk(n) && |old(Unread())| < n && r != Err(Closed) ==> Remaining(s.script) < old(Remaining(s.script))
      ensures old(Clean(s.script)) ==> Clean(s.script)
      ensures old(Clean(s.script)) && r.Err? && LengthOk(n) ==> r.error == Closed
    {
      if !LengthOk(n) {
        return Err(Protocol);
      }
      if end - start >= n {
        return Ok(());
      }
      if buf.Length - start < n {
        EnsureCapacity(start + n);
      }
      while end - start < n
        invariant Valid() && s.Valid() && (buf == old(buf) || fresh(buf))
        invariant buf.Length - start >= n
        invariant Rest(s) == old(Rest(s)) && old(Unread()) <= Unread()
        invariant Remaining(s.script) <= old(Remaining(s.script))
        invariant end - start >= n ==> Remaining(s.script) < old(Remaining(s.script))
        invariant old(Clean(s.script)) ==> Clean(s.script)
        decreases Remaining(s.script)
      {
        var got := ReadMore(s);
        match got
        case Got(chunk) =>
          if chunk == 0 {
            return Err(Closed);
          }
        case Retry =>
        case Failure(error) =>
          return Err(error);
      }
      r := Ok(());
    }

    /** `skip`. */
    method Skip(s: Socket, n: nat) returns (r: Result<()>)
      requires Valid() && s.Valid()
      modifies this, buf, s
      ensures Valid() && s.Valid() && (buf == old(buf) || fresh(buf))
      ensures Remaining(s.script) <= old(Remaining(s.script))
      ensures LengthOk(n) && |old(Unread())| >= n ==> r.Ok?
      ensures Consumed(r.Ok?, if r.Err? then r.error else Closed, n, old(Rest(s)), Rest(s), s.script, old(s.script))
    {
      r := EnsureData(s, n);
      if r.Ok? {
        assert buf[start + n..end] == Unread()[n..];
        start := start + n;
      }
    }

    /** `read_byte`. */
    method ReadByte(s: Socket) returns (r: Result<byte>)
      requires Valid() && s.Valid()
      modifies this, buf, s
      ensures Valid() && s.Valid() && (buf == old(buf) || fresh(buf))
      ensures Remaining(s.script) <= old(Remaining(s.script))
      ensures |old(Unread())| >= 1 ==> r.Ok?
      ensures Consumed(r.Ok?, if r.Err? then r.error else Closed, 1, old(Rest(s)), Rest(s), s.script, old(s.script))
      ensures r.Ok? ==> r.value == old(Rest(s))[0]
    {
      var ready := EnsureData(s, 1);
      if ready.Err? {
        return Err(ready.error);
      }
      assert buf[start + 1..end] == Unread()[1..];
      var b := buf[start];
      assert b == Rest(s)[0];
      start := start + 1;
      r := Ok(b);
    }

    /** `read_i32`. */
    method ReadI32(s: Socket) returns (r: Result<int>)
      requires Valid() && s.Valid()
      modifies this, buf, s
      ensures Valid() && s.Valid() && (buf == old(buf) || fresh(buf))
      ensures Remaining(s.script) <= old(Remaining(s.script))
      ensures |old(Unread())| >= 4 ==> r.Ok?
      ensures Consumed(r.Ok?, if r.Err? then r.error else Closed, 4, old(Rest(s)), Rest(s), s.script, old(s.script))
      ensures r.Ok? ==> r.value == BigI32(old(Rest(s)), 0)
    {
      var ready := EnsureData(s, 4);
      if ready.Err? {
        return Err(ready.error);
      }
      assert buf[start + 4..end] == Unread()[4..];
      assert buf[start..start + 4] == Rest(s)[..4];
      var v := BigI32(buf[start..start + 4], 0);
      start := start + 4;
      r := Ok(v);
    }

    /** `read_bytes` and `read_bytes_into`. */
    method ReadBytes(s: Socket, n: nat) returns (r: Result<seq<byte>>)
      requires Valid() && s.Valid()
      modifies this, buf, s
      ensures Valid() && s.Valid() && (buf == old(buf) || fresh(buf))
      ensures Remaining(s.script) <= old(Remaining(s.script))
      ensures LengthOk(n) && |old(Unread())| >= n ==> r.Ok?
      ensures Consumed(r.Ok?, if r.Err? then r.error else Closed, n, old(Rest(s)), Rest(s), s.script, old(s.script))
      ensures r.Ok? ==> r.value == old(Rest(s))[..n]
    {
      var ready := EnsureData(s, n);
      if ready.Err? {
        return Err(ready.error);
      }
      assert buf[start + n..end] == Unread()[n..];
      assert buf[start..start + n] == Rest(s)[..n];
      var out := buf[start..start + n];
      start := start + n;
      r := Ok(out);
    }

    /** `peek_bytes`: `n` bytes without consuming them. */
    method PeekBytes(s: Socket, n: nat) returns (r: Result<seq<byte>>)
      requires Valid() && s.Valid()
      modifies this, buf, s
      ensures Valid() && s.Valid() && (buf == old(buf) || fresh(buf))
      ensures Remaining(s.script) <= old(Remaining(s.script))
      ensures Rest(s) == old(Rest(s))
      ensures Consumed(r.Ok?, if r.Err? then r.error else Closed, n, old(Rest(s)),
                       if r.Ok? && n <= |Rest(s)| then Rest(s)[n..] else Rest(s), s.script, old(s.script))
      ensures r.Ok? ==> n <= |Unread()| && r.value == old(Rest(s))[..n] == Unread()[..n]
    {
      var ready := EnsureData(s, n);
      if ready.Err? {
        return Err(ready.error);
      }
      assert Unread()[..n] == buf[start..start + n];
      assert Rest(s)[..n] == Unread()[..n];
      r := Ok(buf[start..start + n]);
    }

    /** `advance`: consumes received bytes only. */
    method Advance(n: nat)
      requires Valid()
      modifies this`start
      ensures Valid()
      ensures Unread() == if n <= |old(Unread())| then old(Unread())[n..] else []
    {
      start := if start + n <= end then start + n else end;
    }

    /** `shrink_if_large`. */
    method ShrinkIfLarge()
      requires Valid()
      modifies this
      ensures Valid() && (buf == old(buf) || fresh(buf))
      ensures Unread() == old(Unread())
      ensures buf.Length <= SHRINK_LIMIT || |Unread()| > INITIAL
    {
      if buf.Length <= SHRINK_LIMIT {
        return;
      }
      if end - start > INITIAL {
        return;
      }
      var remaining := end - start;
      var steady := new byte[Max(INITIAL, remaining)](_ => 0);
      forall k | 0 <= k < remaining {
        steady[k] := buf[start + k];
      }
      assert steady[..remaining] == Unread();
      buf, start, end := steady, 0, remaining;
    }
  }

  /** A read of `n` bytes either takes exactly the first `n` bytes of what is left, or takes nothing. It takes
      nothing only when the length is refused, the stream ends first, or the transport fails. */
  ghost predicate Consumed(ok: bool, error: NzError, n: nat, before: seq<byte>, after: seq<byte>,
                           script: seq<ReadEvent>, oldScript: seq<ReadEvent>) {
    && (ok ==> LengthOk(n) && n <= |before| && after == before[n..])
    && (!ok ==> after == before)
    && (!ok && !LengthOk(n) ==> error == Protocol)
    && (!ok && LengthOk(n) ==> error in {Closed, Io, IoTimeout})
    && (!ok && LengthOk(n) && error == Closed ==> |before| < n)
    && (Clean(oldScript) ==> Clean(script))
    && (Clean(oldScript) && !ok && LengthOk(n) ==> error == Closed)
  }

  function Max(a: int, b: int): int {
    if a >= b then a else b
  }
}
