/** Command output: internal/docker/ringbuffer.go, and boundedBuffer and logReader of internal/applecontainer. Both
    buffers refine one log that never forgets; a follower delivers a prefix of it, or says that it cannot. */
module Logs {
  import opened Prelude

  /** The last cap bytes of the log. */
  function Tail(log: seq<Byte>, cap: nat): (t: seq<Byte>)
    ensures |t| <= cap && |t| <= |log|
  {
    if |log| <= cap then log else log[|log| - cap..]
  }

  /** Forgetting early or late makes no difference. */
  lemma TailOfTail(log: seq<Byte>, p: seq<Byte>, cap: nat)
    ensures Tail(Tail(log, cap) + p, cap) == Tail(log + p, cap)
  {
  }

  /** Byte pos of the log is no longer among the last cap. */
  predicate Overrun(log: seq<Byte>, pos: nat, cap: nat) {
    pos + cap < |log|
  }

  /** A follower that has been overrun stays overrun. */
  lemma OverrunStays(log: seq<Byte>, log': seq<Byte>, pos: nat, cap: nat)
    requires log <= log' && Overrun(log, pos, cap)
    ensures Overrun(log', pos, cap)
  {
  }

  /** What one look at a buffer gives a follower. */
  datatype Chunk = Data(bytes: seq<Byte>) | Wait | Truncated | End | Failure(error: Error) | Shut

  /** A follower at pos may answer c: the next bytes of the log, the loss of some of them, or, only after all that
      was written, the end. */
  ghost predicate Faithful(log: seq<Byte>, pos: nat, cap: nat, room: nat, c: Chunk) {
    && (c.Data? ==> 0 < |c.bytes| <= room && pos + |c.bytes| <= |log| && c.bytes == log[pos..pos + |c.bytes|] && !Overrun(log, pos, cap))
    && (c.Truncated? <==> Overrun(log, pos, cap))
    && (c.End? || c.Failure? || c.Wait? ==> pos == |log|)
  }

  lemma ModIs(a: int, q: int, r: int, m: int)
    requires 0 < m && 0 <= r < m && a == q * m + r
    ensures a % m == r
  {
    var q', r' := a / m, a % m;
    assert a == m * q' + r';
    assert m * q' == q' * m;
    assert (q' - q) * m == q' * m - q * m;
    Multiple(q' - q, m);
  }

  lemma Multiple(k: int, m: int)
    requires 0 < m
    ensures (k >= 1 ==> k * m >= m) && (k <= -1 ==> k * m <= -m)
  {
  }

  /** Where byte w + j is kept, if byte w is kept at start. */
  lemma Slot(w: nat, j: nat, size: nat)
    requires 0 < size && j <= size
    ensures var start := w % size; (w + j) % size == if start + j < size then start + j else if start + j < 2 * size then start + j - size else 0
  {
    var start, q := w % size, w / size;
    assert w == q * size + start;
    if start + j < size {
      ModIs(w + j, q, start + j, size);
    } else {
      assert (q + 1) * size == q * size + size;
      ModIs(w + j, q + 1, start + j - size, size);
    }
  }

  /** The byte i of the log that a slot holds is the last one written to it. */
  ghost predicate Holds(buf: seq<Byte>, log: seq<Byte>) {
    |buf| > 0 && forall i | Max(0, |log| - |buf|) <= i < |log| :: buf[i % |buf|] == log[i]
  }

  class RingBuffer {
    const size: nat
    const buf: array<Byte>
    var written: nat
    var closed: bool
    var readErr: Option<Error>
    ghost var log: seq<Byte>

    ghost predicate Valid()
      reads this, buf
    {
      buf.Length == size > 0 && written == |log| && Holds(buf[..], log)
    }

    /** The modulus needs a positive capacity, which the only caller gives. */
    constructor (size: nat)
      requires size > 0
      ensures Valid() && fresh(buf) && log == [] && !closed && this.size == size
    {
      this.size := size;
      buf := new Byte[size](i => 0);
      written, closed, readErr, log := 0, false, None, [];
    }

    /** copy(buf[at:], src) */
    method Copy(at: nat, src: seq<Byte>)
      requires at + |src| <= buf.Length
      modifies buf
      ensures buf[..] == old(buf[..at]) + src + old(buf[at + |src|..])
    {
      forall j | 0 <= j < |src| {
        buf[at + j] := src[j];
      }
    }

    /** The copies of one write: up to the end of the array, and on from its beginning. */
    method CopyAround(start: nat, src: seq<Byte>)
      requires start < buf.Length && |src| <= buf.Length
      modifies buf
      ensures buf[..] == Around(old(buf[..]), start, src)
    {
      if start + |src| <= buf.Length {
        Copy(start, src);
      } else {
        var first := buf.Length - start;
        ghost var before := buf[..];
        Copy(start, src[..first]);
        ghost var between := buf[..];
        assert between == before[..start] + src[..first] && |before[..start]| == start;
        Copy(0, src[first..]);
        AroundTheEnd(before, start, src, between, buf[..]);
      }
    }

    method Write(p: seq<Byte>) returns (n: nat)
      requires Valid()
      modifies this`written, this`log, buf
      ensures Valid() && log == old(log) + p && n == |p|
    {
      hide Holds, Around;
      n := |p|;
      ghost var before, all := buf[..], log + p;
      if n >= size {
        var start := (written + n) % size;
        var tail := p[n - size..];
        assert tail == all[|all| - size..];
        CopyAround(start, tail);
        WholeRing(before, all, tail, start);
      } else {
        CopyAround(written % size, p);
        PartOfRing(before, log, p);
      }
      written, log := written + n, all;
    }

    /** All content, oldest byte first. */
    method Bytes() returns (out: seq<Byte>)
      requires Valid()
      ensures out == Tail(log, size)
    {
      if written == 0 {
        return [];
      }
      if written <= size {
        forall i | 0 <= i < written ensures buf[i] == log[i] {
          Slot(0, i, size);
        }
        return buf[..written];
      }
      var start := written % size;
      out := buf[start..] + buf[..start];
      forall j | 0 <= j < size ensures out[j] == log[written - size + j] {
        Slot(written, j, size);
        Slot(written - size + j, size, size);
        assert buf[..][(written - size + j) % size] == log[written - size + j];
      }
    }

    method CloseWithError(err: Option<Error>)
      requires Valid()
      modifies this`closed, this`readErr
      ensures Valid() && closed && readErr == if old(readErr).None? then err else old(readErr)
    {
      closed := true;
      if readErr.None? {
        readErr := err;
      }
    }
  }

  /** The array after src was laid into it from start on, around its end. */
  function Around(buf: seq<Byte>, start: nat, src: seq<Byte>): (r: seq<Byte>)
    requires start < |buf| && |src| <= |buf|
    ensures |r| == |buf|
  {
    var first := |buf| - start;
    if start + |src| <= |buf| then buf[..start] + src + buf[start + |src|..]
    else src[first..] + buf[|src| - first..start] + src[..first]
  }

  lemma AroundTheEnd(before: seq<Byte>, start: nat, src: seq<Byte>, between: seq<Byte>, after: seq<Byte>)
    requires start < |before| && |src| <= |before| < start + |src|
    requires var first := |before| - start;
      between == before[..start] + src[..first] && after == src[first..] + between[|src| - first..]
    ensures after == Around(before, start, src)
  {
  }

  /** A write that fills the ring: the retained tail is laid around the write position. */
  lemma WholeRing(before: seq<Byte>, all: seq<Byte>, tail: seq<Byte>, start: nat)
    requires 0 < |before| == |tail| <= |all| && tail == all[|all| - |before|..] && start == |all| % |before|
    ensures Holds(Around(before, start, tail), all)
  {
    var size, buf := |before|, Around(before, start, tail);
    forall i | |all| - size <= i < |all| ensures buf[i % size] == all[i] {
      var j := i - (|all| - size);
      Slot(|all|, j, size);
      Slot(i, size, size);
      assert (i + size) % size == i % size;
    }
  }

  /** A shorter write overwrites the oldest bytes only. */
  lemma PartOfRing(before: seq<Byte>, log: seq<Byte>, p: seq<Byte>)
    requires Holds(before, log) && |p| < |before|
    ensures Holds(Around(before, |log| % |before|, p), log + p)
  {
    var size, all := |before|, log + p;
    var after := Around(before, |log| % size, p);
    forall i | Max(0, |all| - size) <= i < |all| ensures after[i % size] == all[i] {
      if i >= |log| {
        Slot(|log|, i - |log|, size);
      } else {
        Slot(i, |log| - i, size);
        assert before[i % size] == log[i];
      }
    }
  }

  /** A follower of a ring buffer, from the beginning. */
  class RingReader {
    const ring: RingBuffer
    var pos: nat
    var closed: bool
    ghost var delivered: seq<Byte>

    ghost predicate Valid()
      reads this, ring, ring.buf
    {
      ring.Valid() && pos <= |ring.log| && delivered == ring.log[..pos]
    }

    constructor (ring: RingBuffer)
      requires ring.Valid()
      ensures Valid() && this.ring == ring && pos == 0 && !closed && delivered == []
    {
      this.ring, pos, closed, delivered := ring, 0, false, [];
    }

    /** One turn of the loop of Read; Wait means that it blocks for more data. */
    method Poll(room: nat) returns (c: Chunk)
      requires Valid() && room > 0
      modifies this`pos, this`delivered
      ensures Valid() && (closed <==> c.Shut?)
      ensures !closed ==> Faithful(ring.log, old(pos), ring.size, room, c)
      ensures delivered == old(delivered) + if c.Data? then c.bytes else []
      ensures c.Data? ==> |c.bytes| == room || pos == |ring.log|
      ensures (c.End? || c.Failure? ==> ring.closed) && (c.Wait? ==> !ring.closed)
      ensures c.End? ==> ring.readErr.None?
      ensures c.Failure? ==> ring.readErr == Some(c.error)
    {
      hide Holds;
      if closed {
        return Shut;
      }
      if ring.written > ring.size && pos < ring.written - ring.size {
        return Truncated;
      }
      var available := ring.written - pos;
      if available > 0 {
        var n := if available > room then room else available;
        var start := pos % ring.size;
        var bytes;
        if start + n <= ring.size {
          bytes := ring.buf[start..start + n];
        } else {
          bytes := ring.buf[start..] + ring.buf[..n - (ring.size - start)];
        }
        RingHolds(ring.buf[..], ring.log, pos, bytes);
        delivered := delivered + bytes;
        pos := pos + n;
        return Data(bytes);
      }
      if ring.closed {
        return if ring.readErr.Some? then Failure(ring.readErr.value) else End;
      }
      return Wait;
    }

    method Close()
      requires Valid()
      modifies this`closed
      ensures Valid() && closed
    {
      closed := true;
    }
  }

  /** The slots from pos on, around the end of the ring, are the bytes of the log from pos on. */
  lemma RingHolds(buf: seq<Byte>, log: seq<Byte>, pos: nat, bytes: seq<Byte>)
    requires Holds(buf, log) && pos + |bytes| <= |log| && |log| <= pos + |buf| && |bytes| <= |buf|
    requires var start := pos % |buf|;
      bytes == if start + |bytes| <= |buf| then buf[start..start + |bytes|] else buf[start..] + buf[..|bytes| - (|buf| - start)]
    ensures bytes == log[pos..pos + |bytes|]
  {
    forall j | 0 <= j < |bytes| ensures bytes[j] == log[pos + j] {
      Slot(pos, j, |buf|);
      assert buf[(pos + j) % |buf|] == log[pos + j];
    }
  }

  /******* The tail buffer of the second runtime *******/

  function Kept(log: seq<Byte>, limit: nat, tail: bool): seq<Byte> {
    if tail then Tail(log, limit) else if |log| <= limit then log else log[..limit]
  }

  /** What is kept after one more write: everything, the end of it, or its beginning. */
  lemma KeptAfter(log: seq<Byte>, p: seq<Byte>, limit: nat, tail: bool)
    ensures var data, n := Kept(log, limit, tail), |p|;
      && |data| <= limit && |data| <= |log|
      && (tail && n >= limit && |data| + n > limit ==> Kept(log + p, limit, tail) == p[n - limit..])
      && (tail && n < limit && |data| + n > limit ==> Kept(log + p, limit, tail) == data[|data| + n - limit..] + p)
      && (!tail && |data| + n > limit ==> Kept(log + p, limit, tail) == data + p[..limit - |data|] && |log| + n > limit)
      && (|data| + n <= limit ==> Kept(log + p, limit, tail) == data + p && (|log| + n > limit <==> |log| > limit))
  {
  }

  class BoundedBuffer {
    const limit: nat
    const tail: bool
    var data: seq<Byte>
    var overflow: bool
    var total: nat
    ghost var log: seq<Byte>

    /** A tail buffer keeps the end of what was written, any other the beginning, and both say if that is not all. */
    ghost predicate Valid()
      reads this
    {
      && total == |log| && (overflow <==> |log| > limit)
      && data == Kept(log, limit, tail)
    }

    constructor (limit: nat, tail: bool)
      ensures Valid() && log == [] && this.limit == limit && this.tail == tail
    {
      this.limit, this.tail := limit, tail;
      data, overflow, total, log := [], false, 0, [];
    }

    method Write(p: seq<Byte>) returns (n: nat)
      requires Valid()
      modifies this
      ensures Valid() && log == old(log) + p && n == |p|
    {
      hide Kept;
      n := |p|;
      total := total + n;
      KeptAfter(log, p, limit, tail);
      log := log + p;
      if |data| + n > limit {
        overflow := true;
        if tail {
          if n >= limit {
            data := p[n - limit..];
            return;
          }
          data := data[|data| + n - limit..];
        }
      }
      var remaining := limit - |data|;
      data := data + if n > remaining then p[..remaining] else p;
    }

    method Snapshot() returns (bytes: seq<Byte>, truncated: bool)
      requires Valid()
      ensures truncated <==> |log| > limit
      ensures tail ==> bytes == Tail(log, limit)
      ensures !tail ==> bytes <= log && (!truncated ==> bytes == log)
    {
      return data, overflow;
    }
  }

  /** Bytes that are still in the tail are the bytes of the log. */
  lemma TailHolds(log: seq<Byte>, limit: nat, offset: nat, bytes: seq<Byte>)
    requires |log| - |Tail(log, limit)| <= offset && offset + |bytes| <= |log|
    requires bytes == Tail(log, limit)[offset - (|log| - |Tail(log, limit)|)..][..|bytes|]
    ensures bytes == log[offset..offset + |bytes|] && log[..offset] + bytes == log[..offset + |bytes|]
  {
  }

  /** One output of a command. Its end is announced only after everything was written. */
  class CommandOutput {
    const buffer: BoundedBuffer
    var done: bool

    ghost predicate Valid()
      reads this, buffer
    {
      buffer.Valid() && buffer.tail
    }

    constructor (limit: nat)
      ensures Valid() && fresh(buffer) && buffer.log == [] && !done && buffer.limit == limit
    {
      buffer := new BoundedBuffer(limit, true);
      done := false;
    }

    method Write(p: seq<Byte>)
      requires Valid() && !done
      modifies buffer
      ensures Valid() && buffer.log == old(buffer.log) + p
    {
      var n := buffer.Write(p);
    }

    method Finish()
      requires Valid()
      modifies this`done
      ensures Valid() && done
    {
      done := true;
    }
  }

  /** The follower of a command output. A turn of the loop of Read looks at the buffer twice: it copies what is there,
      and, if that was nothing, it looks whether the command is done and then whether something was written meanwhile. */
  class LogReader {
    const output: CommandOutput
    var offset: nat
    var closed: bool
    var idle: bool    // nothing was copied in this turn
    ghost var delivered: seq<Byte>

    ghost predicate Valid()
      reads this, output, output.buffer
    {
      output.Valid() && offset <= |output.buffer.log| && delivered == output.buffer.log[..offset]
    }

    constructor (output: CommandOutput)
      requires output.Valid()
      ensures Valid() && this.output == output && offset == 0 && !closed && !idle && delivered == []
    {
      this.output, offset, closed, idle, delivered := output, 0, false, false, [];
    }

    /** The first look of a turn: Wait means that there was nothing to copy. */
    method Copy(room: nat) returns (c: Chunk)
      requires Valid() && room > 0 && !idle
      modifies this`offset, this`delivered, this`idle
      ensures Valid() && (closed <==> c.Shut?) && (idle <==> c.Wait?)
      ensures !closed ==> Faithful(output.buffer.log, old(offset), output.buffer.limit, room, c)
      ensures delivered == old(delivered) + if c.Data? then c.bytes else []
      ensures !c.End? && !c.Failure?
    {
      if closed {
        return Shut;
      }
      var buffer := output.buffer;
      TailStarts(buffer.log, buffer.limit, offset);
      assert buffer.data == Tail(buffer.log, buffer.limit);
      hide Kept, Tail;
      var first := buffer.total - |buffer.data|;
      if offset < first {
        return Truncated;
      }
      var rest := buffer.data[offset - first..];
      var bytes := if |rest| > room then rest[..room] else rest;
      CopiedIsNext(buffer.log, buffer.limit, buffer.data, offset, room);
      delivered := delivered + bytes;
      offset := offset + |bytes|;
      idle := bytes == [];
      return if idle then Wait else Data(bytes);
    }

    /** The second look, after others may have written: the end is answered exactly if the command is done and nothing
        of its output is left. */
    method Settle() returns (c: Chunk)
      requires Valid() && idle
      modifies this`idle
      ensures Valid() && !idle
      ensures c == if closed then Shut else if output.done && delivered == output.buffer.log then End else Wait
    {
      idle := false;
      if closed {
        return Shut;
      }
      if output.done {
        var remaining := offset < output.buffer.total;
        if !remaining {
          return End;
        }
      }
      return Wait;
    }

    method Close()
      requires Valid()
      modifies this`closed
      ensures Valid() && closed
    {
      closed := true;
    }
  }

  /** The tail starts behind offset exactly if bytes are lost. */
  lemma TailStarts(log: seq<Byte>, limit: nat, offset: nat)
    ensures offset < |log| - |Tail(log, limit)| <==> Overrun(log, offset, limit)
  {
  }

  /** What is copied from the tail buffer: the next bytes of the log, all of them if there is room. */
  lemma CopiedIsNext(log: seq<Byte>, limit: nat, data: seq<Byte>, offset: nat, room: nat)
    requires data == Tail(log, limit) && |log| - |data| <= offset <= |log| && room > 0
    ensures var rest := data[offset - (|log| - |data|)..];
      var bytes := if |rest| > room then rest[..room] else rest;
      && offset + |bytes| <= |log| && bytes == log[offset..offset + |bytes|] && log[..offset] + bytes == log[..offset + |bytes|]
      && (bytes == [] <==> offset == |log|) && |bytes| <= room && !Overrun(log, offset, limit)
  {
    var rest := data[offset - (|log| - |data|)..];
    var bytes := if |rest| > room then rest[..room] else rest;
    assert rest == log[offset..];
    TailHolds(log, limit, offset, bytes);
  }

  /** What may happen between two looks of a follower. */
  datatype Step = Writes(bytes: seq<Byte>) | Finishes | Copies(room: nat) | Settles | Closes

  /** The command is done after these steps. */
  predicate DoneAfter(steps: seq<Step>, done: bool) {
    done || exists i :: 0 <= i < |steps| && steps[i].Finishes?
  }

  /** What the command has written in these steps: nothing after it was done. */
  function WrittenIn(steps: seq<Step>, done: bool): seq<Byte> {
    if steps == [] then []
    else
      var before, last := steps[..|steps| - 1], steps[|steps| - 1];
      WrittenIn(before, done) + if last.Writes? && !DoneAfter(before, done) then last.bytes else []
  }

  /** What the follower was given. */
  function DataOf(chunks: seq<Chunk>): seq<Byte> {
    if chunks == [] then []
    else DataOf(chunks[..|chunks| - 1]) + if chunks[|chunks| - 1].Data? then chunks[|chunks| - 1].bytes else []
  }

  lemma NextStep(steps: seq<Step>, done: bool, i: nat)
    requires i < |steps|
    ensures WrittenIn(steps[..i + 1], done) ==
      WrittenIn(steps[..i], done) + if steps[i].Writes? && !DoneAfter(steps[..i], done) then steps[i].bytes else []
    ensures DoneAfter(steps[..i + 1], done) <==> DoneAfter(steps[..i], done) || steps[i].Finishes?
  {
    var more := steps[..i + 1];
    assert more[..|more| - 1] == steps[..i] && more[i] == steps[i];
    if k :| 0 <= k < i && steps[..i][k].Finishes? {
      assert more[k].Finishes?;
    }
    if k :| 0 <= k < |more| && more[k].Finishes? {
      assert k < i ==> steps[..i][k].Finishes?;
    }
  }

  lemma NextChunk(chunks: seq<Chunk>, c: Chunk)
    ensures DataOf(chunks + [c]) == DataOf(chunks) + if c.Data? then c.bytes else []
  {
    assert (chunks + [c])[..|chunks|] == chunks;
  }

  /** One step of the command or of its follower; a look gives the follower a chunk. */
  method TakeStep(reader: LogReader, step: Step) returns (c: Option<Chunk>)
    requires reader.Valid()
    modifies reader, reader.output, reader.output.buffer
    ensures reader.Valid() && reader.delivered == old(reader.delivered) + if c.Some? && c.value.Data? then c.value.bytes else []
    ensures reader.output.buffer.log == old(reader.output.buffer.log) + if step.Writes? && !old(reader.output.done) then step.bytes else []
    ensures reader.output.done == (old(reader.output.done) || step.Finishes?)
    ensures c == Some(End) || old(reader.output.done && reader.delivered == reader.output.buffer.log) ==>
      reader.output.done && reader.delivered == reader.output.buffer.log
    ensures c.Some? <==> (step.Copies? && step.room > 0 && !old(reader.idle)) || (step.Settles? && old(reader.idle))
  {
    c := None;
    match step
    case Writes(bytes) =>
      if !reader.output.done {
        reader.output.Write(bytes);
      }
    case Finishes => reader.output.Finish();
    case Copies(room) =>
      if room > 0 && !reader.idle {
        var look := reader.Copy(room);
        c := Some(look);
      }
    case Settles =>
      if reader.idle {
        var look := reader.Settle();
        c := Some(look);
      }
    case Closes => reader.Close();
  }

  /** However the steps of the command and of its follower interleave: the log is what the command wrote, what the
      follower was given is a gap-free prefix of it, and once the end was answered it is all of it, for good. */
  method Follow(reader: LogReader, steps: seq<Step>) returns (chunks: seq<Chunk>)
    requires reader.Valid()
    modifies reader, reader.output, reader.output.buffer
    ensures reader.Valid() && reader.delivered == old(reader.delivered) + DataOf(chunks)
    ensures reader.output.buffer.log == old(reader.output.buffer.log) + WrittenIn(steps, old(reader.output.done))
    ensures reader.delivered <= reader.output.buffer.log && reader.output.done == DoneAfter(steps, old(reader.output.done))
    ensures End in chunks ==> reader.output.done && reader.delivered == reader.output.buffer.log
  {
    hide WrittenIn, DoneAfter, DataOf;
    var output := reader.output;
    ghost var done := output.done;
    chunks := [];
    assert steps[..0] == [];
    NoStep(done);
    for i := 0 to |steps|
      invariant reader.Valid() && reader.delivered == old(reader.delivered) + DataOf(chunks)
      invariant output.buffer.log == old(output.buffer.log) + WrittenIn(steps[..i], done)
      invariant output.done == DoneAfter(steps[..i], done)
      invariant End in chunks ==> output.done && reader.delivered == output.buffer.log
    {
      NextStep(steps, done, i);
      var c := TakeStep(reader, steps[i]);
      if c.Some? {
        NextChunk(chunks, c.value);
        chunks := chunks + [c.value];
      }
    }
    assert steps[..|steps|] == steps;
  }

  lemma NoStep(done: bool)
    ensures WrittenIn([], done) == [] && DoneAfter([], done) == done && DataOf([]) == []
  {
  }

  /******* Both refine one log *******/

  /** The same writes leave the same bytes in a ring and in a tail buffer of its capacity. */
  method WriteBoth(writes: seq<seq<Byte>>, capacity: nat) returns (ringBytes: seq<Byte>, tailBytes: seq<Byte>)
    requires capacity > 0
    ensures ringBytes == tailBytes == Tail(Flatten(writes), capacity)
  {
    var ring := new RingBuffer(capacity);
    var buffer := new BoundedBuffer(capacity, true);
    for i := 0 to |writes|
      invariant ring.Valid() && buffer.Valid() && fresh(ring.buf) && fresh(ring) && fresh(buffer)
      invariant ring.size == capacity == buffer.limit && buffer.tail
      invariant ring.log == buffer.log == Flatten(writes[..i])
    {
      assert writes[..i + 1][..i] == writes[..i];
      var n := ring.Write(writes[i]);
      n := buffer.Write(writes[i]);
    }
    assert writes[..|writes|] == writes;
    ringBytes := ring.Bytes();
    var truncated;
    tailBytes, truncated := buffer.Snapshot();
  }
}
