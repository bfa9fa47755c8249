/** firmware_request_handler: 200 with an octet-stream content type, then
    the downloaded firmware file streamed one preferred-size block per
    response buffer. The download, fstat and the stream's error flag are
    inputs; the file is its contents. */
module Firmware {
  import opened CStrings
  import opened Unit

  /** The 512-byte unit st_blocks counts in. */
  const Sector: nat := 512

  type BlockSize = n: nat | n > 0 witness 512

  /** What fstat reports beside the size: st_blksize and st_blocks. */
  datatype FileStat = FileStat(blksize: BlockSize, blocks: nat)

  /** A preferred block size that is a multiple or a divisor of 512 (every
      power of two is one or the other). */
  predicate Aligned(blksize: BlockSize) {
    blksize % Sector == 0 || Sector % blksize == 0
  }

  lemma DivUnique(a: nat, b: nat, q: nat, r: nat)
    requires b > 0 && a == q * b + r && r < b
    ensures a / b == q
  {
    var q' := a / b;
    if q' < q {
      MulMonotone(q' + 1, q, b);
      assert false;
    } else if q' > q {
      MulMonotone(q + 1, q', b);
      assert false;
    }
  }

  lemma {:induction false} MulMonotone(x: nat, y: nat, b: nat)
    requires x <= y
    ensures x * b <= y * b
    decreases y - x
  {
    if x < y {
      MulMonotone(x + 1, y, b);
      assert (x + 1) * b == x * b + b;
    }
  }

  /** io_blocks: the allocation converted from 512-byte units to preferred
      blocks, dividing by the block size in sectors when it is larger than a
      sector and multiplying by the sectors per block when it is smaller. */
  function IoBlocks(st: FileStat): nat {
    if st.blksize > Sector then st.blocks / (st.blksize / Sector)
    else if st.blksize < Sector then st.blocks * (Sector / st.blksize)
    else st.blocks
  }

  /** For an aligned block size io_blocks is the number of whole preferred
      blocks in the allocation. */
  lemma AlignedIoBlocks(st: FileStat)
    requires Aligned(st.blksize)
    ensures IoBlocks(st) == st.blocks * Sector / st.blksize
  {
    if st.blksize > Sector {
      var m := st.blksize / Sector;
      var n := st.blocks / m;
      assert st.blksize == m * Sector;
      var r := st.blocks % m;
      assert st.blocks == n * m + r;
      assert st.blocks * Sector == n * st.blksize + r * Sector;
      assert r * Sector < st.blksize;
      DivUnique(st.blocks * Sector, st.blksize, n, r * Sector);
    } else if st.blksize < Sector {
      var n := st.blocks * (Sector / st.blksize);
      assert Sector == (Sector / st.blksize) * st.blksize;
      assert st.blocks * Sector == n * st.blksize;
      DivUnique(st.blocks * Sector, st.blksize, n, 0);
    } else {
      DivUnique(st.blocks * Sector, st.blksize, st.blocks, 0);
    }
  }

  /** The preferred blocks a file of size bytes fills, the last one partly. */
  function Ceil(size: nat, b: BlockSize): (n: nat)
    ensures n * b >= size
    ensures n > 0 ==> (n - 1) * b < size
  {
    var n := (size + b - 1) / b;
    assert size + b - 1 == n * b + (size + b - 1) % b;
    n
  }

  /** The allocation is exactly the preferred blocks the file fills. */
  predicate ExactAllocation(size: nat, st: FileStat) {
    st.blocks * Sector == Ceil(size, st.blksize) * st.blksize
  }

  /** Under an exact, aligned allocation io_blocks is the number of blocks the file fills. */
  lemma ExactIoBlocks(size: nat, st: FileStat)
    requires Aligned(st.blksize) && ExactAllocation(size, st)
    ensures IoBlocks(st) == Ceil(size, st.blksize)
  {
    AlignedIoBlocks(st);
    DivUnique(st.blocks * Sector, st.blksize, Ceil(size, st.blksize), 0);
  }

  /** What the last buffer advertises after a short read:
      blksize - (blocks * 512 - size), in signed arithmetic. */
  function LastChunkLength(size: nat, st: FileStat): int {
    st.blksize - (st.blocks * Sector - size)
  }

  /** Under an exact allocation the last-chunk length is what is left of the
      file after the full blocks before it. */
  lemma LastChunkExact(size: nat, st: FileStat)
    requires ExactAllocation(size, st) && size > 0
    ensures LastChunkLength(size, st) == size - (Ceil(size, st.blksize) - 1) * st.blksize
  {
  }

  /** The bytes the sent buffers carry, in order. */
  function Sent(events: seq<Event>): seq<char> {
    if events == [] then [] else (if events[0].SendBuf? then events[0].data else []) + Sent(events[1..])
  }

  /** The lengths the sent buffers advertise, summed. */
  function Advertised(events: seq<Event>): int {
    if events == [] then 0 else (if events[0].SendBuf? then events[0].length else 0) + Advertised(events[1..])
  }

  /** The number of buffers sent. */
  function SendCount(events: seq<Event>): nat {
    if events == [] then 0 else (if events[0].SendBuf? then 1 else 0) + SendCount(events[1..])
  }

  lemma {:induction false} SentAppend(a: seq<Event>, b: seq<Event>)
    ensures Sent(a + b) == Sent(a) + Sent(b)
    ensures Advertised(a + b) == Advertised(a) + Advertised(b)
    ensures SendCount(a + b) == SendCount(a) + SendCount(b)
  {
    if a == [] {
      assert a + b == b;
    } else {
      assert (a + b)[0] == a[0];
      assert (a + b)[1..] == a[1..] + b;
      SentAppend(a[1..], b);
    }
  }

  /** One buffer allocated and sent. */
  lemma AllocThenSend(size: int, data: seq<char>, length: int)
    ensures Sent([AllocBuf(size), SendBuf(data, length)]) == data
    ensures Advertised([AllocBuf(size), SendBuf(data, length)]) == length
    ensures SendCount([AllocBuf(size), SendBuf(data, length)]) == 1
  {
    var e := [AllocBuf(size), SendBuf(data, length)];
    assert e[1..] == [SendBuf(data, length)];
    assert [SendBuf(data, length)][1..] == [];
    assert Sent([SendBuf(data, length)]) == data + Sent([]) == data;
    assert SendCount([SendBuf(data, length)]) == 1 + SendCount([]) == 1;
    assert Sent(e[1..]) == data;
    assert Sent(e) == [] + Sent(e[1..]) == data;
    assert SendCount(e) == 0 + SendCount(e[1..]);
    assert Advertised([SendBuf(data, length)]) == length + Advertised([]) == length;
    assert Advertised(e) == 0 + Advertised(e[1..]);
  }

  /** The chunk loop from iteration i, the stream at pos and the log at
      position k: allocate a buffer, read one preferred block into it,
      advertise all of it on a full read or the last-chunk length on a short
      one, and send it. The loop ends after io iterations, at the first failing
      call with NXT_UNIT_ERROR, or at a read error with rc unchanged. */
  function ChunkLoop(ok: nat -> bool, k: nat, data: seq<char>, st: FileStat, io: nat, i: nat, pos: nat, readFails: bool): (t: Tail)
    requires pos <= |data| && i <= io
    decreases io - i
  {
    if i == io then Tail([], 0)
    else if !ok(k) then Tail([AllocBuf(st.blksize)], UnitError)
    else
      var n := Min(st.blksize, |data| - pos);
      if n < st.blksize && readFails then Tail([AllocBuf(st.blksize)], 0)
      else
        var length := if n == st.blksize then st.blksize as int else LastChunkLength(|data|, st);
        var send := [AllocBuf(st.blksize), SendBuf(data[pos..pos + n], length)];
        if !ok(k + 1) then Tail(send, UnitError)
        else
          var rest := ChunkLoop(ok, k + 2, data, st, io, i + 1, pos + n, readFails);
          Tail(send + rest.events, rest.rc)
  }

  /** Where the loop stands at iteration i < io of an exact allocation: on a
      block boundary inside the file, reading a full block except on the last
      iteration. */
  lemma BlockArith(size: nat, b: BlockSize, i: nat, pos: nat)
    requires i < Ceil(size, b) && pos == Min(i * b, size)
    ensures pos == i * b && pos < size
    ensures pos + Min(b, size - pos) == Min((i + 1) * b, size)
    ensures Min(b, size - pos) < b ==> i == Ceil(size, b) - 1
  {
    var io := Ceil(size, b);
    MulMonotone(i, io - 1, b);
    assert (i + 1) * b == i * b + b;
    if i < io - 1 {
      MulMonotone(i + 1, io - 1, b);
    }
  }

  /** Under an exact allocation each buffer advertises what was read into it. */
  lemma ExactStep(size: nat, st: FileStat, i: nat, pos: nat)
    requires ExactAllocation(size, st)
    requires i < Ceil(size, st.blksize) && pos == Min(i * st.blksize, size)
    ensures var n := Min(st.blksize, size - pos);
      && pos + n == Min((i + 1) * st.blksize, size)
      && (if n == st.blksize then st.blksize as int else LastChunkLength(size, st)) == n
  {
    BlockArith(size, st.blksize, i, pos);
    LastChunkExact(size, st);
  }

  /** One iteration of the loop when both its calls succeed and the read
      yields the whole chunk it sends. */
  lemma ChunkStep(ok: nat -> bool, k: nat, data: seq<char>, st: FileStat, io: nat, i: nat, pos: nat, readFails: bool)
    requires pos <= |data| && i < io && ok(k) && ok(k + 1)
    requires !(Min(st.blksize, |data| - pos) < st.blksize && readFails)
    ensures var n := Min(st.blksize, |data| - pos);
      var length := if n == st.blksize then st.blksize as int else LastChunkLength(|data|, st);
      var rest := ChunkLoop(ok, k + 2, data, st, io, i + 1, pos + n, readFails);
      ChunkLoop(ok, k, data, st, io, i, pos, readFails)
        == Tail([AllocBuf(st.blksize), SendBuf(data[pos..pos + n], length)] + rest.events, rest.rc)
  {
  }

  /** An iteration that ends the loop: the allocation fails, the read fails,
      or the send fails. */
  lemma ChunkExit(ok: nat -> bool, k: nat, data: seq<char>, st: FileStat, io: nat, i: nat, pos: nat, readFails: bool)
    requires pos <= |data| && i < io
    ensures var n := Min(st.blksize, |data| - pos);
      var length := if n == st.blksize then st.blksize as int else LastChunkLength(|data|, st);
      var t := ChunkLoop(ok, k, data, st, io, i, pos, readFails);
      && (!ok(k) ==> t == Tail([AllocBuf(st.blksize)], UnitError))
      && (ok(k) && n < st.blksize && readFails ==> t == Tail([AllocBuf(st.blksize)], 0))
      && (ok(k) && !(n < st.blksize && readFails) && !ok(k + 1)
          ==> t == Tail([AllocBuf(st.blksize), SendBuf(data[pos..pos + n], length)], UnitError))
  {
  }

  /** The loop only allocates and sends buffers, and ends with NXT_UNIT_OK
      or NXT_UNIT_ERROR. */
  lemma {:induction false} ChunkLoopWorking(ok: nat -> bool, k: nat, data: seq<char>, st: FileStat, io: nat, i: nat, pos: nat, readFails: bool)
    requires pos <= |data| && i <= io
    ensures var t := ChunkLoop(ok, k, data, st, io, i, pos, readFails);
      Working(t.events) && (t.rc == UnitOk || t.rc == UnitError)
    decreases io - i
  {
    if i < io {
      var n := Min(st.blksize, |data| - pos);
      var length := if n == st.blksize then st.blksize as int else LastChunkLength(|data|, st);
      var send := [AllocBuf(st.blksize), SendBuf(data[pos..pos + n], length)];
      ChunkExit(ok, k, data, st, io, i, pos, readFails);
      if ok(k) && !(n < st.blksize && readFails) && ok(k + 1) {
        ChunkStep(ok, k, data, st, io, i, pos, readFails);
        ChunkLoopWorking(ok, k + 2, data, st, io, i + 1, pos + n, readFails);
        WorkingAppend(send, ChunkLoop(ok, k + 2, data, st, io, i + 1, pos + n, readFails).events);
      }
    }
  }

  /** The loop sends at most one buffer per iteration, whatever fails. */
  lemma {:induction false} ChunkLoopSendsAtMost(ok: nat -> bool, k: nat, data: seq<char>, st: FileStat, io: nat, i: nat, pos: nat, readFails: bool)
    requires pos <= |data| && i <= io
    ensures SendCount(ChunkLoop(ok, k, data, st, io, i, pos, readFails).events) <= io - i
    decreases io - i
  {
    var t := ChunkLoop(ok, k, data, st, io, i, pos, readFails);
    if i < io {
      var n := Min(st.blksize, |data| - pos);
      var length := if n == st.blksize then st.blksize as int else LastChunkLength(|data|, st);
      var send := [AllocBuf(st.blksize), SendBuf(data[pos..pos + n], length)];
      if ok(k) && !(n < st.blksize && readFails) && ok(k + 1) {
        ChunkStep(ok, k, data, st, io, i, pos, readFails);
        var rest := ChunkLoop(ok, k + 2, data, st, io, i + 1, pos + n, readFails);
        ChunkLoopSendsAtMost(ok, k + 2, data, st, io, i + 1, pos + n, readFails);
        assert SendCount(rest.events) <= io - (i + 1);
        AllocThenSend(st.blksize, data[pos..pos + n], length);
        SentAppend(send, rest.events);
        assert t.events == send + rest.events;
        assert SendCount(t.events) == 1 + SendCount(rest.events);
        assert SendCount(t.events) <= io - i;
      } else {
        ChunkExit(ok, k, data, st, io, i, pos, readFails);
        AllocThenSend(st.blksize, data[pos..pos + n], length);
        assert SendCount([AllocBuf(st.blksize)]) == 0 + SendCount([]);
        assert t.events == send || t.events == [AllocBuf(st.blksize)];
        assert SendCount(t.events) <= 1;
      }
    } else {
      assert t.events == [];
    }
  }

  /** A piece of the loop that completes and sends the file from pos on,
      in count buffers. */
  predicate Covers(t: Tail, data: seq<char>, pos: nat, count: nat)
    requires pos <= |data|
  {
    && t.rc == 0 && Sent(t.events) == data[pos..] && Advertised(t.events) == |data| - pos
    && SendCount(t.events) == count
  }

  /** What the loop sends from iteration i on, as ChunksCoverRest states it. */
  predicate SendsRest(ok: nat -> bool, k: nat, data: seq<char>, st: FileStat, i: nat, pos: nat)
    requires i <= Ceil(|data|, st.blksize) && pos <= |data|
  {
    Covers(ChunkLoop(ok, k, data, st, Ceil(|data|, st.blksize), i, pos, false), data, pos, Ceil(|data|, st.blksize) - i)
  }

  /** One buffer carrying the next n bytes in front of a piece that covers the rest. */
  lemma PrependChunk(data: seq<char>, pos: nat, n: nat, size: int, rest: Tail, count: nat)
    requires pos + n <= |data| && Covers(rest, data, pos + n, count)
    ensures Covers(Tail([AllocBuf(size), SendBuf(data[pos..pos + n], n)] + rest.events, rest.rc), data, pos, count + 1)
  {
    var send := [AllocBuf(size), SendBuf(data[pos..pos + n], n)];
    AllocThenSend(size, data[pos..pos + n], n);
    SentAppend(send, rest.events);
    assert data[pos..] == data[pos..pos + n] + data[pos + n..];
  }

  /** The inductive step of ChunksCoverRest: one more full iteration in front
      of a loop that sends the rest. */
  lemma CoverStep(ok: nat -> bool, k: nat, data: seq<char>, st: FileStat, i: nat, pos: nat)
    requires ok(k) && ok(k + 1)
    requires i < Ceil(|data|, st.blksize) && pos <= |data|
    requires var n := Min(st.blksize, |data| - pos);
      (if n == st.blksize then st.blksize as int else LastChunkLength(|data|, st)) == n
    requires SendsRest(ok, k + 2, data, st, i + 1, pos + Min(st.blksize, |data| - pos))
    ensures SendsRest(ok, k, data, st, i, pos)
  {
    var io := Ceil(|data|, st.blksize);
    var n := Min(st.blksize, |data| - pos);
    var rest := ChunkLoop(ok, k + 2, data, st, io, i + 1, pos + n, false);
    ChunkStep(ok, k, data, st, io, i, pos, false);
    PrependChunk(data, pos, n, st.blksize, rest, io - (i + 1));
  }

  /** With every call succeeding, no read error and an exact allocation, the
      loop from a block boundary sends the rest of the file one block per
      buffer, and the advertised lengths add up to what is left of it. */
  lemma {:induction false} ChunksCoverRest(ok: nat -> bool, k: nat, data: seq<char>, st: FileStat, i: nat, pos: nat)
    requires forall j :: ok(j)
    requires ExactAllocation(|data|, st)
    requires i <= Ceil(|data|, st.blksize) && pos == Min(i * st.blksize, |data|)
    ensures SendsRest(ok, k, data, st, i, pos)
    decreases Ceil(|data|, st.blksize) - i
  {
    if i < Ceil(|data|, st.blksize) {
      ExactStep(|data|, st, i, pos);
      ChunksCoverRest(ok, k + 2, data, st, i + 1, pos + Min(st.blksize, |data| - pos));
      CoverStep(ok, k, data, st, i, pos);
    } else {
      assert pos == |data| by {
        assert Ceil(|data|, st.blksize) * st.blksize >= |data|;
      }
    }
  }

  /** Under an exact, aligned allocation with every call succeeding and no
      read error, the firmware goes out whole: the sent bytes are the file,
      the advertised total is its size, and one buffer goes out per block it fills. */
  lemma AdvertisedTotalIsSize(ok: nat -> bool, k: nat, data: seq<char>, st: FileStat)
    requires forall j :: ok(j)
    requires Aligned(st.blksize) && ExactAllocation(|data|, st)
    ensures var t := ChunkLoop(ok, k, data, st, IoBlocks(st), 0, 0, false);
      t.rc == 0 && Sent(t.events) == data && Advertised(t.events) == |data|
      && SendCount(t.events) == Ceil(|data|, st.blksize)
  {
    ExactIoBlocks(|data|, st);
    ChunksCoverRest(ok, k, data, st, 0, 0);
  }

  /** A 1000-byte file in one 4096-byte block (eight sectors): one buffer,
      advertising 1000 bytes. */
  lemma OneShortBlock(ok: nat -> bool, k: nat, data: seq<char>, readFails: bool)
    requires |data| == 1000 && ok(k) && ok(k + 1)
    ensures IoBlocks(FileStat(4096, 8)) == 1
    ensures ChunkLoop(ok, k, data, FileStat(4096, 8), 1, 0, 0, readFails).events
      == (if readFails then [AllocBuf(4096)] else [AllocBuf(4096), SendBuf(data, 1000)])
  {
    assert data[0..1000] == data;
  }

  /** The whole handler: response_init(200, octet stream); the download; fstat;
      the chunk loop; then, on every exit, fclose and request_done with rc. The
      exits before the download close a stream that was never opened, and a
      failed fstat completes with 0 and no body. */
  function FirmwareLog(ok: nat -> bool, k: nat, download: int, data: seq<char>, stat: Option<FileStat>, readFails: bool): (t: Tail)
    ensures |t.events| >= 3 && t.events[..|HeaderCalls(ok, k, 200, OctetStream)|] == HeaderCalls(ok, k, 200, OctetStream)
    ensures t.events[|t.events| - 1] == RequestDone(t.rc) && t.events[|t.events| - 2].CloseFile?
    ensures t.events[|t.events| - 2].streamOpen <==> HeadersSent(ok, k) && download == 0
    ensures !HeadersSent(ok, k) ==> t.rc == 1
    ensures HeadersSent(ok, k) && download != 0 ==> t.rc == download
    ensures HeadersSent(ok, k) && download == 0 && stat.None? ==> t.rc == 0 && |t.events| == 5
  {
    var h := HeaderCalls(ok, k, 200, OctetStream);
    if !HeadersSent(ok, k) then Tail(h + [CloseFile(false), RequestDone(1)], 1)
    else if download != 0 then Tail(h + [CloseFile(false), RequestDone(download)], download)
    else if stat.None? then Tail(h + [CloseFile(true), RequestDone(0)], 0)
    else
      var loop := ChunkLoop(ok, k + 3, data, stat.value, IoBlocks(stat.value), 0, 0, readFails);
      Tail(h + loop.events + [CloseFile(true), RequestDone(loop.rc)], loop.rc)
  }

  /** Every exit closes the file and completes the request once, as the last
      two steps; nothing before them releases or completes anything. */
  lemma FirmwareFinishes(ok: nat -> bool, k: nat, download: int, data: seq<char>, stat: Option<FileStat>, readFails: bool)
    ensures var t := FirmwareLog(ok, k, download, data, stat, readFails);
      Working(t.events[..|t.events| - 2]) && CompletedOnce(t.events)
  {
    var t := FirmwareLog(ok, k, download, data, stat, readFails);
    var h := HeaderCalls(ok, k, 200, OctetStream);
    HeaderCallsWorking(ok, k, 200, OctetStream);
    var body: seq<Event> := [];
    if HeadersSent(ok, k) && download == 0 && stat.Some? {
      body := ChunkLoop(ok, k + 3, data, stat.value, IoBlocks(stat.value), 0, 0, readFails).events;
      ChunkLoopWorking(ok, k + 3, data, stat.value, IoBlocks(stat.value), 0, 0, readFails);
    }
    WorkingAppend(h, body);
    assert t.events == (h + body) + t.events[|t.events| - 2..];
    assert t.events[..|t.events| - 2] == h + body;
  }

  lemma AppendTwo<T>(s: seq<T>, a: T, b: T)
    ensures (s + [a]) + [b] == s + [a, b]
  {
  }

  /** The bookkeeping of one iteration: what was logged so far grows by the
      iteration's events and the rest of the loop shrinks by them. */
  lemma Advance(before: seq<Event>, done: seq<Event>, step: seq<Event>, whole: Tail, rem: Tail, rest: Tail)
    requires whole.events == done + rem.events && whole.rc == rem.rc
    requires rem == Tail(step + rest.events, rest.rc)
    ensures whole.events == (done + step) + rest.events && whole.rc == rest.rc
    ensures (before + done) + step == before + (done + step)
  {
    Associative(done, step, rest.events);
    Associative(before, done, step);
  }

  /** One iteration of the chunk loop on the request, from iteration i with
      the stream at pos: either the loop ends here with rc, or a full buffer
      went out and the stream moved n bytes on. */
  method ChunkIteration(req: RequestInfo, data: seq<char>, st: FileStat, io: nat, i: nat, pos: nat, readFails: bool, ghost k: nat)
    returns (stop: bool, rc: int, next: nat, ghost step: seq<Event>)
    requires i < io && pos <= |data| && k == |req.events|
    modifies req
    ensures var t := ChunkLoop(req.succeeds, k, data, st, io, i, pos, readFails);
      stop ==> req.events == old(req.events) + t.events && rc == t.rc
    ensures !stop ==> next == pos + Min(st.blksize, |data| - pos) && req.events == old(req.events) + step && |step| == 2
    ensures !stop ==>
      var t := ChunkLoop(req.succeeds, k, data, st, io, i, pos, readFails);
      var rest := ChunkLoop(req.succeeds, k + 2, data, st, io, i + 1, next, readFails);
      t == Tail(step + rest.events, rest.rc)
  {
    ghost var before := req.events;
    ChunkExit(req.succeeds, k, data, st, io, i, pos, readFails);
    var got := req.Call(AllocBuf(st.blksize));
    if got != UnitOk {
      return true, UnitError, pos, [];
    }
    var n := Min(st.blksize, |data| - pos);
    var length: int;
    if n == st.blksize {
      length := st.blksize;
    } else if readFails {
      return true, 0, pos, [];
    } else {
      length := LastChunkLength(|data|, st);
    }
    step := [AllocBuf(st.blksize), SendBuf(data[pos..pos + n], length)];
    rc := req.Call(SendBuf(data[pos..pos + n], length));
    assert req.events == before + step by {
      assert step == [AllocBuf(st.blksize)] + [SendBuf(data[pos..pos + n], length)];
      Associative(before, [AllocBuf(st.blksize)], [SendBuf(data[pos..pos + n], length)]);
    }
    if rc != UnitOk {
      return true, rc, pos, step;
    }
    ChunkStep(req.succeeds, k, data, st, io, i, pos, readFails);
    stop, next := false, pos + n;
  }

  /** The chunk loop on the request, for io_blocks iterations. */
  method SendChunks(req: RequestInfo, data: seq<char>, st: FileStat, io: nat, readFails: bool) returns (rc: int)
    modifies req
    ensures var t := ChunkLoop(req.succeeds, |old(req.events)|, data, st, io, 0, 0, readFails);
      req.events == old(req.events) + t.events && rc == t.rc
  {
    ghost var k := |req.events|;
    ghost var whole := ChunkLoop(req.succeeds, k, data, st, io, 0, 0, readFails);
    ghost var done: seq<Event> := [];
    ghost var rem := whole;
    var i: nat, pos: nat := 0, 0;
    while i < io
      invariant i <= io && pos <= |data| && req.events == old(req.events) + done && k == |req.events|
      invariant rem == ChunkLoop(req.succeeds, k, data, st, io, i, pos, readFails)
      invariant whole.events == done + rem.events && whole.rc == rem.rc
      decreases io - i
    {
      var stop, next;
      ghost var step;
      stop, rc, next, step := ChunkIteration(req, data, st, io, i, pos, readFails, k);
      if stop {
        Associative(old(req.events), done, rem.events);
        return;
      }
      ghost var rest := ChunkLoop(req.succeeds, k + 2, data, st, io, i + 1, next, readFails);
      Advance(old(req.events), done, step, whole, rem, rest);
      done, rem, k := done + step, rest, k + 2;
      i, pos := i + 1, next;
    }
    assert rem.events == [];
    assert done + [] == done;
    rc := 0;
  }

  /** firmware_request_handler on the request: download is the return code of
      the download, data the downloaded file and stat what fstat reports (None
      when it fails). */
  method FirmwareRequestHandler(req: RequestInfo, download: int, data: seq<char>, stat: Option<FileStat>, readFails: bool)
    modifies req
    ensures req.events == old(req.events) + FirmwareLog(req.succeeds, |old(req.events)|, download, data, stat, readFails).events
  {
    ghost var k := |req.events|;
    ghost var h := HeaderCalls(req.succeeds, k, 200, OctetStream);
    ghost var body: seq<Event> := [];
    var streamOpen := false;
    var rc := req.ResponseInit(200, OctetStream);
    if rc == 0 {
      rc := download;
      if rc == 0 {
        streamOpen := true;
        if stat.Some? {
          var io := IoBlocks(stat.value);
          rc := SendChunks(req, data, stat.value, io, readFails);
          body := ChunkLoop(req.succeeds, k + 3, data, stat.value, IoBlocks(stat.value), 0, 0, readFails).events;
          Associative(old(req.events), h, body);
        }
      }
    }
    assert req.events == old(req.events) + (h + body);
    assert FirmwareLog(req.succeeds, k, download, data, stat, readFails).events
      == (h + body) + [CloseFile(streamOpen), RequestDone(rc)];
    ghost var logged := req.events;
    req.Record(CloseFile(streamOpen));
    req.Record(RequestDone(rc));
    AppendTwo(logged, CloseFile(streamOpen), RequestDone(rc));
    Associative(old(req.events), h + body, [CloseFile(streamOpen), RequestDone(rc)]);
  }
}
