/** `scan_register_range`: a register range read in chunks, some of which may fail. */
module RegisterScan {
  import opened Common
  import opened Bytes
  import opened Registers

  /** A register read of a connected client: address and count to bytes, or an error. */
  type Device = (word, word) -> Option<seq<byte>>

  datatype Entry = Entry(address: int, values: seq<int>)

  /** What one progress message reports: the chunk's bounds, its number, and how much was found before it. */
  datatype Progress = Progress(first: int, last: int, number: int, total: int, found: nat)

  datatype Result = ConnectFailed | Scanned(start: int, end: int, nonZero: seq<Entry>, progress: seq<Progress>)

  const MAX_SPAN: int := 1000

  /** Go's conversion to `uint16` keeps the low sixteen bits. */
  function ToUint16(x: int): (w: word)
    ensures (x - w) % 0x1_0000 == 0
  {
    x % 0x1_0000
  }

  /** Go's integer division rounds toward zero. */
  function Quotient(n: int, d: int): int
    requires d > 0
  {
    if n >= 0 then n / d else -(-n / d)
  }

  /** The cap, in 64-bit arithmetic. */
  function CappedEnd(start: int64, end: int64): int64 {
    if Wrap64(end - start) > MAX_SPAN then Wrap64(start + MAX_SPAN) else end
  }

  /** The cap does what it is for exactly when the span fits into 64 bits, or is so far below zero
      that it wraps around to at most 1000. */
  lemma CapExactly(start: int64, end: int64)
    ensures CappedEnd(start, end) == (if end - start > MAX_SPAN then start + MAX_SPAN else end) <==>
            -0x8000_0000_0000_0000 <= end - start < 0x8000_0000_0000_0000
            || end - start <= MAX_SPAN - 0x1_0000_0000_0000_0000
  {
    Wrapped(end - start);
    Wrapped(start + MAX_SPAN);
  }

  /** A span of 2^63 is not capped. */
  lemma CapSkipped()
    ensures var start, end: int64 := -0x4000_0000_0000_0000, 0x4000_0000_0000_0000;
            end - start > MAX_SPAN && CappedEnd(start, end) == end
  {
    Wrapped(0x8000_0000_0000_0000);
  }

  /** A range that ends 2^63 + 1 before its start becomes one of 1001 registers. */
  lemma CapMovesEnd()
    ensures var start, end: int64 := 0x4000_0000_0000_0000, -0x4000_0000_0000_0001;
            end < start && CappedEnd(start, end) == start + MAX_SPAN
  {
    Wrapped(-0x8000_0000_0000_0001);
  }

  /** One turn around is enough for sums and differences. */
  lemma Wrapped(x: int)
    requires -0x1_0000_0000_0000_0000 <= x <= 0x1_0000_0000_0000_0000
    ensures Wrap64(x) == if x < -0x8000_0000_0000_0000 then x + 0x1_0000_0000_0000_0000
                         else if x < 0x8000_0000_0000_0000 then x else x - 0x1_0000_0000_0000_0000
  {
  }

  /** The announced number of chunks, in 64-bit arithmetic. */
  function TotalChunks(start: int, end: int): int {
    Quotient(Wrap64(Wrap64(end - start) + 50), 50)
  }

  function LastOf(addr: int, end: int): int {
    if addr + 50 - 1 > end then end else addr + 50 - 1
  }

  /** The non-zero registers of one reply, numbered from `addr`. */
  function NonZero(addr: int, regs: seq<word>): seq<Entry> {
    if regs == [] then []
    else
      var last := |regs| - 1;
      NonZero(addr, regs[..last]) + if regs[last] != 0 then [Entry(addr + last, [regs[last]])] else []
  }

  /** One read: a failed one finds nothing. */
  function Reply(device: Device, addr: int, count: int): seq<Entry> {
    match device(ToUint16(addr), ToUint16(count))
    case None => []
    case Some(raw) => NonZero(addr, Unpack(raw))
  }

  function FoundIn(device: Device, addr: int, end: int): seq<Entry> {
    Reply(device, addr, LastOf(addr, end) - addr + 1)
  }

  /** What is found from `addr` on, chunk by chunk. */
  function FoundFrom(device: Device, addr: int, end: int): seq<Entry>
    decreases end - addr
  {
    if addr > end then [] else FoundIn(device, addr, end) + FoundFrom(device, addr + 50, end)
  }

  function RegisterKind(kind: string, holding: Option<bool>): string {
    if kind != "" then kind
    else if holding == Some(false) then "input" else "holding"
  }

  method ReadChunk(device: Device, addr: int, count: int) returns (found: seq<Entry>)
    ensures found == Reply(device, addr, count)
  {
    found := [];
    var raw := device(ToUint16(addr), ToUint16(count));
    if raw.Some? {
      var regs := BytesToRegisters(raw.value);
      for i := 0 to regs.Length
        invariant found == NonZero(addr, regs[..i])
      {
        assert regs[..i + 1][..i] == regs[..i];
        if regs[i] != 0 {
          found := found + [Entry(addr + i, [regs[i]])];
        }
      }
      assert regs[..regs.Length] == regs[..];
    }
  }

  method ScanRange(connected: bool, input: Device, holding: Device, kind: string, useHolding: Option<bool>,
                   start: int64, requestedEnd: int64)
    returns (result: Result)
    ensures result.ConnectFailed? <==> !connected
    ensures connected ==>
      var end := CappedEnd(start, requestedEnd);
      var device := if kind == "input" || (kind == "" && useHolding == Some(false)) then input else holding;
      && result.start == start && result.end == end
      && result.nonZero == FoundFrom(device, start, end)
      && Reports(result.progress, start, end)
      && CountsSoFar(result.progress, device, end, |result.nonZero|)
  {
    hide FoundFrom, Reports, CountsSoFar;
    var regType := RegisterKind(kind, useHolding);
    var end := requestedEnd;
    if Wrap64(end - start) > MAX_SPAN {
      end := Wrap64(start + MAX_SPAN);
    }
    if !connected {
      return ConnectFailed;
    }
    var device := if regType == "input" then input else holding;
    var found, progress := ScanChunks(device, start, end);
    result := Scanned(start, end, found, progress);
  }

  /** The chunk loop. */
  method ScanChunks(device: Device, start: int64, end: int64) returns (found: seq<Entry>, progress: seq<Progress>)
    ensures found == FoundFrom(device, start, end)
    ensures Reports(progress, start, end)
    ensures CountsSoFar(progress, device, end, |found|)
  {
    hide Reply, TotalChunks, FoundIn;
    found, progress := [], [];
    var totalChunks := TotalChunks(start, end);
    var chunkNum := 0;
    var addr := start;
    ghost var all := FoundFrom(device, start, end);
    while addr <= end
      invariant addr == start + 50 * chunkNum && chunkNum >= 0
      invariant found + FoundFrom(device, addr, end) == all
      invariant |progress| == chunkNum && (chunkNum > 0 ==> addr - 50 <= end)
      invariant forall k :: 0 <= k < |progress| ==> IsChunk(progress[k], start, end, k)
      invariant CountsSoFar(progress, device, end, |all|)
      decreases end - addr
    {
      chunkNum := chunkNum + 1;
      var count := 50;
      if addr + count - 1 > end {
        count := end - addr + 1;
      }
      progress := progress + [Progress(addr, addr + count - 1, chunkNum, totalChunks, |found|)];
      ghost var before, here, rest := found, FoundIn(device, addr, end), FoundFrom(device, addr + 50, end);
      var more := ReadChunk(device, addr, count);
      assert more == here by { FoundInIs(device, addr, end); }
      found := found + more;
      assert before + (here + rest) == (before + here) + rest;
      addr := addr + 50;
    }
  }

  lemma FoundInIs(device: Device, addr: int, end: int)
    ensures FoundIn(device, addr, end) == Reply(device, addr, LastOf(addr, end) - addr + 1)
  {
    hide Reply;
  }

  // ---- the chunks ----

  /** Each message gives the number of registers found before its chunk. */
  predicate CountsSoFar(progress: seq<Progress>, device: Device, end: int, total: nat) {
    forall k :: 0 <= k < |progress| ==>
                  progress[k].found == total - |FoundFrom(device, progress[k].first, end)|
  }

  predicate IsChunk(p: Progress, start: int, end: int, k: nat) {
    && p.first == start + 50 * k <= p.last == LastOf(p.first, end)
    && p.number == k + 1 && p.total == TotalChunks(start, end)
  }

  /** One message per chunk, in order, up to the end of the range. */
  predicate Reports(progress: seq<Progress>, start: int, end: int) {
    && (forall k :: 0 <= k < |progress| ==> IsChunk(progress[k], start, end, k))
    && start + 50 * |progress| > end
    && (progress != [] ==> start + 50 * (|progress| - 1) <= end)
  }

  /** The chunks partition the range into pieces of 1 to 50 registers. There are as many as announced
      exactly when the span and one more chunk fit into 64 bits, and at most 21 within the cap. */
  lemma ChunksPartition(progress: seq<Progress>, start: int64, end: int64)
    requires Reports(progress, start, end)
    ensures forall k :: 0 <= k < |progress| ==>
                          progress[k].number == k + 1 && 1 <= progress[k].last - progress[k].first + 1 <= 50
    ensures forall k :: 0 <= k < |progress| - 1 ==> progress[k + 1].first == progress[k].last + 1
    ensures progress != [] <==> start <= end
    ensures progress != [] ==> progress[0].first == start && progress[|progress| - 1].last == end
    ensures start <= end ==> (|progress| == TotalChunks(start, end) <==> end - start + 50 < 0x8000_0000_0000_0000)
    ensures start <= end <= start + MAX_SPAN ==> 1 <= |progress| <= 21
  {
    Wrapped(end - start);
    Wrapped(Wrap64(end - start) + 50);
    forall k | 0 <= k < |progress| - 1 ensures progress[k + 1].first == progress[k].last + 1 {
      assert IsChunk(progress[k], start, end, k) && IsChunk(progress[k + 1], start, end, k + 1);
    }
  }

  /** The running count starts at zero and grows from message to message by what the chunk between them gave. */
  lemma CountsAdd(progress: seq<Progress>, device: Device, start: int, end: int, k: nat)
    requires Reports(progress, start, end) && k < |progress|
    requires CountsSoFar(progress, device, end, |FoundFrom(device, start, end)|)
    ensures progress[0].found == 0
    ensures k + 1 < |progress| ==>
              progress[k + 1].found ==
              progress[k].found + |Reply(device, progress[k].first, progress[k].last - progress[k].first + 1)|
  {
    hide Reply, TotalChunks, LastOf;
    assert IsChunk(progress[0], start, end, 0) && IsChunk(progress[k], start, end, k);
    if k + 1 < |progress| {
      assert IsChunk(progress[k + 1], start, end, k + 1);
      FoundAtChunk(device, progress[k].first, end);
    }
    hide FoundFrom;
  }

  lemma FoundAtChunk(device: Device, addr: int, end: int)
    requires addr <= end
    ensures |FoundFrom(device, addr, end)| ==
            |Reply(device, addr, LastOf(addr, end) - addr + 1)| + |FoundFrom(device, addr + 50, end)|
  {
    hide Reply, LastOf;
  }

  /** Up to 50 short of the largest 64-bit integer, the loop's address never wraps around. */
  lemma AddressFits(progress: seq<Progress>, start: int64, end: int64)
    requires Reports(progress, start, end) && end < 0x8000_0000_0000_0000 - 50
    ensures forall k :: 0 <= k < |progress| ==>
                          -0x8000_0000_0000_0000 <= progress[k].first <= progress[k].first + 50 < 0x8000_0000_0000_0000
  {
    forall k | 0 <= k < |progress| ensures start <= progress[k].first <= end {
      assert IsChunk(progress[k], start, end, k);
    }
  }

  lemma AddressInOneChunk(progress: seq<Progress>, start: int, end: int, a: int)
    requires Reports(progress, start, end) && start <= a <= end
    ensures var k := (a - start) / 50; 0 <= k < |progress| && progress[k].first <= a <= progress[k].last
    ensures forall k :: 0 <= k < |progress| && progress[k].first <= a <= progress[k].last ==> k == (a - start) / 50
  {
    var k := (a - start) / 50;
    assert k < |progress|;
    assert IsChunk(progress[k], start, end, k);
    forall i | 0 <= i < |progress| && progress[i].first <= a <= progress[i].last ensures i == k {
      assert IsChunk(progress[i], start, end, i);
    }
  }

  /** Every message announces the number of messages there will be exactly when there are none or
      the requested end lies less than 2^63 after the start. */
  lemma AnnouncedTotal(progress: seq<Progress>, start: int64, requested: int64)
    requires Reports(progress, start, CappedEnd(start, requested))
    ensures (forall k :: 0 <= k < |progress| ==> progress[k].total == |progress|) <==>
            start > CappedEnd(start, requested) || requested - start < 0x8000_0000_0000_0000
  {
    var end := CappedEnd(start, requested);
    Wrapped(requested - start);
    Wrapped(start + MAX_SPAN);
    ChunksPartition(progress, start, end);
    forall k | 0 <= k < |progress| ensures progress[k].total == TotalChunks(start, end) {
      assert IsChunk(progress[k], start, end, k);
    }
    hide TotalChunks;
    assert progress != [] ==> progress[0].total == TotalChunks(start, end);
  }

  /** A span of 2^63 announces a negative number. */
  lemma NegativeTotal()
    ensures var start, end: int64 := -0x4000_0000_0000_0000, 0x4000_0000_0000_0000;
            CappedEnd(start, end) == end && TotalChunks(start, end) == -184467440737095515
  {
    CapSkipped();
    Wrapped(0x8000_0000_0000_0000);
  }

  // ---- what is found ----

  /** A device whose registers can be read in some places and not in others. */
  datatype Memory = Memory(register: int -> word, readable: (int, int) -> bool)

  function Cells(m: Memory, addr: int, count: nat): (r: seq<word>)
    ensures |r| == count && forall i :: 0 <= i < count ==> r[i] == m.register(addr + i)
  {
    seq<word>(count, i => m.register(addr + i))
  }

  function DeviceOf(m: Memory): Device {
    (addr: word, count: word) => if m.readable(addr, count) then Some(Pack(Cells(m, addr, count))) else None
  }

  predicate ChunkReadable(m: Memory, start: int, end: int, a: int) {
    var first := start + (a - start) / 50 * 50;
    m.readable(first, LastOf(first, end) - first + 1)
  }

  predicate Ascending(s: seq<Entry>) {
    forall i, j :: 0 <= i < j < |s| ==> s[i].address < s[j].address
  }

  predicate IsEntry(addr: int, regs: seq<word>, e: Entry) {
    addr <= e.address < addr + |regs| && regs[e.address - addr] != 0 && e.values == [regs[e.address - addr]]
  }

  lemma {:induction false} NonZeroIn(addr: int, regs: seq<word>, e: Entry)
    ensures e in NonZero(addr, regs) <==> IsEntry(addr, regs, e)
  {
    if regs != [] {
      var last := |regs| - 1;
      NonZeroIn(addr, regs[..last], e);
      if addr <= e.address < addr + last {
        assert regs[..last][e.address - addr] == regs[e.address - addr];
      }
    }
  }

  lemma {:induction false} NonZeroAscending(addr: int, regs: seq<word>)
    ensures Ascending(NonZero(addr, regs))
  {
    if regs != [] {
      var front := regs[..|regs| - 1];
      NonZeroAscending(addr, front);
      forall i | 0 <= i < |NonZero(addr, front)| ensures NonZero(addr, front)[i].address < addr + |front| {
        NonZeroIn(addr, front, NonZero(addr, front)[i]);
      }
    }
  }

  /** The entry is a non-zero register of a chunk that could be read. */
  predicate Present(m: Memory, start: int, end: int, e: Entry) {
    && start <= e.address <= end
    && ChunkReadable(m, start, end, e.address)
    && m.register(e.address) != 0 && e.values == [m.register(e.address)]
  }

  lemma SameChunk(m: Memory, start: int, k: nat, end: int, a: int)
    requires var addr := start + 50 * k; addr <= a <= LastOf(addr, end)
    ensures var addr := start + 50 * k;
      ChunkReadable(m, start, end, a) <==> m.readable(addr, LastOf(addr, end) - addr + 1)
  {
    assert (a - start) / 50 == k;
  }

  lemma PresentInRange(m: Memory, start: int, end: int, e: Entry)
    ensures Present(m, start, end, e) ==> start <= e.address <= end
  {
  }

  lemma ChunkReply(m: Memory, addr: int, end: int)
    requires 0 <= addr <= end < 0x1_0000
    ensures var count := LastOf(addr, end) - addr + 1;
      FoundIn(DeviceOf(m), addr, end) == if m.readable(addr, count) then NonZero(addr, Cells(m, addr, count)) else []
  {
    var count: word := LastOf(addr, end) - addr + 1;
    assert ToUint16(addr) == addr && ToUint16(count) == count;
    UnpackPack(Cells(m, addr, count));
  }

  lemma FoundInChunk(m: Memory, start: int, k: nat, end: int, e: Entry)
    requires 0 <= start && start + 50 * k <= end < 0x1_0000
    ensures var addr := start + 50 * k; e in FoundIn(DeviceOf(m), addr, end) <==>
      addr <= e.address <= LastOf(addr, end) && Present(m, start, end, e)
  {
    var addr := start + 50 * k;
    var count: word := LastOf(addr, end) - addr + 1;
    var regs := Cells(m, addr, count);
    ChunkReply(m, addr, end);
    NonZeroIn(addr, regs, e);
    if addr <= e.address <= LastOf(addr, end) {
      SameChunk(m, start, k, end, e.address);
    }
  }

  lemma FoundInAscending(device: Device, addr: int, end: int)
    ensures Ascending(FoundIn(device, addr, end))
  {
    match device(ToUint16(addr), ToUint16(LastOf(addr, end) - addr + 1))
    case None =>
    case Some(raw) => NonZeroAscending(addr, Unpack(raw));
  }

  lemma AscendingAppend(here: seq<Entry>, there: seq<Entry>, bound: int)
    requires Ascending(here) && forall e :: e in here ==> e.address < bound
    requires Ascending(there) && forall e :: e in there ==> bound <= e.address
    ensures Ascending(here + there)
  {
    assert forall i :: 0 <= i < |here| ==> here[i] in here;
    assert forall i :: 0 <= i < |there| ==> there[i] in there;
  }

  lemma {:induction false} FoundExactlyPresent(m: Memory, start: int, k: nat, end: int, e: Entry)
    requires 0 <= start && end < 0x1_0000
    ensures var addr := start + 50 * k;
      e in FoundFrom(DeviceOf(m), addr, end) <==> addr <= e.address && Present(m, start, end, e)
    decreases end - k
  {
    hide FoundIn, Present;
    PresentInRange(m, start, end, e);
    var addr := start + 50 * k;
    if addr <= end {
      FoundInChunk(m, start, k, end, e);
      FoundExactlyPresent(m, start, k + 1, end, e);
      var here: seq<Entry> := FoundIn(DeviceOf(m), addr, end);
      var there: seq<Entry> := FoundFrom(DeviceOf(m), addr + 50, end);
      assert e in here + there <==> e in here || e in there;
    }
  }

  lemma ChunkIsBelow(m: Memory, start: int, k: nat, end: int)
    requires 0 <= start && start + 50 * k <= end < 0x1_0000
    ensures forall e :: e in FoundIn(DeviceOf(m), start + 50 * k, end) ==> e.address < start + 50 * (k + 1)
  {
    hide FoundIn, Present, DeviceOf;
    forall e | e in FoundIn(DeviceOf(m), start + 50 * k, end) ensures e.address < start + 50 * (k + 1) {
      FoundInChunk(m, start, k, end, e);
    }
  }

  lemma RestIsAbove(m: Memory, start: int, k: nat, end: int)
    requires 0 <= start && end < 0x1_0000
    ensures forall e :: e in FoundFrom(DeviceOf(m), start + 50 * k, end) ==> start + 50 * k <= e.address
  {
    hide FoundFrom, Present, DeviceOf;
    forall e | e in FoundFrom(DeviceOf(m), start + 50 * k, end) ensures start + 50 * k <= e.address {
      FoundExactlyPresent(m, start, k, end, e);
    }
  }

  lemma {:induction false} FoundFromAscending(m: Memory, start: int, k: nat, end: int)
    requires 0 <= start && end < 0x1_0000
    ensures Ascending(FoundFrom(DeviceOf(m), start + 50 * k, end))
    decreases end - k
  {
    var addr := start + 50 * k;
    if addr <= end {
      FoundInAscending(DeviceOf(m), addr, end);
      FoundFromAscending(m, start, k + 1, end);
      ChunkIsBelow(m, start, k, end);
      RestIsAbove(m, start, k + 1, end);
      hide FoundIn, Ascending, DeviceOf;
      assert addr + 50 == start + 50 * (k + 1);
      AscendingAppend(FoundIn(DeviceOf(m), addr, end), FoundFrom(DeviceOf(m), addr + 50, end), addr + 50);
    }
  }

  /** For a range of valid addresses and any pattern of unreadable chunks, the scan lists
      exactly the non-zero registers of the readable chunks, in ascending order. */
  lemma ScanFindsExactly(m: Memory, start: int, end: int)
    requires 0 <= start && end < 0x1_0000
    ensures var found := FoundFrom(DeviceOf(m), start, end);
      Ascending(found) && forall e :: e in found <==> Present(m, start, end, e)
  {
    FoundFromAscending(m, start, 0, end);
    forall e: Entry ensures e in FoundFrom(DeviceOf(m), start, end) <==> Present(m, start, end, e) {
      FoundExactlyPresent(m, start, 0, end, e);
    }
  }
}
