/** The single-producer ring as the code has it: a byte array and six cursors changed in place. */
module SisoRing {
  import opened Words
  import opened SisoModel
  import opened SisoQueue

  /** `store_u32`. */
  method StoreWord(a: array<byte>, at: nat, x: u32)
    requires at + 4 <= a.Length
    modifies a
    ensures a[..] == Store(old(a[..]), at, x)
  {
    a[at] := (x % 0x100) as byte;
    a[at + 1] := (x / 0x100 % 0x100) as byte;
    a[at + 2] := (x / 0x1_0000 % 0x100) as byte;
    a[at + 3] := (x / 0x100_0000) as byte;
  }

  class SisoRingBuffer {
    const blocks: nat
    const data: array<byte>
    var rtReading: u32
    var rtWriting: u32
    var wtReading: u32
    var wtWriting: u32
    var reading: u32
    var writing: u32

    /** The ring as a value. */
    ghost function Snap(): Ring
      reads this, data
    {
      Ring(blocks, data[..], rtReading, rtWriting, wtReading, wtWriting, reading, writing)
    }

    ghost predicate Valid()
      reads this, data
    {
      Inv(Snap())
    }

    /** `init_with_memory` on `count` blocks. */
    constructor (count: nat, memory: array<byte>)
      requires CountOk(count) && memory.Length == 8 * count
      ensures blocks == count && data == memory && Valid()
      ensures Unread(Snap()) == [] && Held(Snap()) == []
    {
      blocks, data := count, memory;
      rtReading, rtWriting, wtReading, wtWriting, reading, writing := 0, 0, 0, 0, 0, 0;
      new;
      EmptyRing(Snap(), 0);
    }

    /** `renew`. */
    method Renew()
      requires Valid()
      modifies this
      ensures Valid() && Unread(Snap()) == [] && Held(Snap()) == []
    {
      rtReading, rtWriting, wtReading, wtWriting, reading, writing := 0, 0, 0, 0, 0, 0;
      EmptyRing(Snap(), 0);
    }

    /** The allocation up to its low-space report. */
    method Reserve(size: u32) returns (result: AllocResult, freeBlocks: nat, chunkBlocks: nat)
      requires Valid()
      modifies this`wtReading, data
      ensures Snap() == Alloc(old(Snap()), size).0 && result == Alloc(old(Snap()), size).1
      ensures !result.Granted? ==> data[..] == old(data[..])
      ensures result.Granted? ==> chunkBlocks == Blocks(blocks, wtWriting % blocks, size) && Shaped(Snap()) && freeBlocks == Free(Snap())
    {
      hide Span, Store, Load, Between, HeadOk;
      freeBlocks, chunkBlocks := 0, 0;
      var index := wtWriting % blocks;
      var tail := blocks - index;
      var normal := (size + 8 + 7) / 8;
      if normal > blocks || (normal > tail && normal + tail - 1 > blocks) {
        result := SizeInvalid;
        return;
      }
      chunkBlocks := if normal > tail then tail + (size + 7) / 8 else normal;
      freeBlocks := Dist(wtWriting, Plus(wtReading, blocks));
      if freeBlocks < chunkBlocks {
        wtReading := reading;
        freeBlocks := Dist(wtWriting, Plus(wtReading, blocks));
      }
      if freeBlocks < chunkBlocks {
        result := NoSpace;
        return;
      }
      StoreWord(data, 8 * index, chunkBlocks);
      StoreWord(data, 8 * index + 4, size);
      result := Granted(if normal > tail then 0 else index * 8 + 8);
    }

    /** The low-space report, with the load of the published cursor it makes. */
    method ReportLow(freeBlocks: nat, chunkBlocks: nat) returns (lowSpace: bool)
      requires Shaped(Snap()) && freeBlocks == Free(Snap())
      modifies this`wtReading
      ensures Snap() == old(Snap()) || Snap() == Refresh(old(Snap()))
      ensures lowSpace <==> LowNow(old(Snap()), chunkBlocks)
    {
      hide Dist, Plus;
      var usedBefore := blocks - freeBlocks;
      lowSpace := 2 * usedBefore < blocks && 2 * (usedBefore + chunkBlocks) >= blocks;
      if lowSpace {
        wtReading := reading;
        var nowFree := Dist(wtWriting, Plus(wtReading, blocks));
        lowSpace := 2 * (blocks - nowFree + chunkBlocks) >= blocks;
      }
    }

    method AllocWriteChunk(size: u32) returns (result: AllocResult, lowSpace: bool)
      requires Valid()
      modifies this`wtReading, data
      ensures Valid() && Unread(Snap()) == old(Unread(Snap())) && Held(Snap()) == old(Held(Snap()))
      ensures result == Alloc(old(Snap()), size).1
      ensures Snap() == Alloc(old(Snap()), size).0 || Snap() == Refresh(Alloc(old(Snap()), size).0)
      ensures result.Granted? ==> Pending(Snap(), size)
      ensures !result.Granted? ==> data[..] == old(data[..])
      ensures lowSpace <==> result.Granted? && CrossesHalf(old(Snap()), size)
    {
      hide Alloc, Blocks, HeadOk, Span, Ordered, LowNow, CrossesHalf, Pending;
      ghost var s := Snap();
      AllocKeeps(s, size);
      RefreshKeeps(Alloc(s, size).0);
      ReportExact(s, size);
      var freeBlocks, chunkBlocks;
      result, freeBlocks, chunkBlocks := Reserve(size);
      lowSpace := false;
      if result.Granted? {
        lowSpace := ReportLow(freeBlocks, chunkBlocks);
      }
    }

    method CommitWriteChunk(ghost size: nat)
      requires Valid() && Pending(Snap(), size)
      modifies this`wtWriting, this`writing
      ensures Valid() && Snap() == Commit(old(Snap()))
      ensures Unread(Snap()) == old(Unread(Snap())) + [old(Draft(Snap()))] && Held(Snap()) == old(Held(Snap()))
    {
      CommitKeeps(Snap(), size);
      var chunkBlocks := Load(data[..], 8 * (wtWriting % blocks));
      wtWriting := Plus(wtWriting, chunkBlocks);
      writing := wtWriting;
    }

    /** `get_block_data_addr`. */
    function DataAddr(index: nat): nat
      requires index < blocks && data.Length == 8 * blocks
      reads data
    {
      DataAt(blocks, index, Load(data[..], 8 * index + 4))
    }

    method ReadChunk() returns (result: ReadResult)
      requires Valid()
      modifies this`rtWriting
      ensures Valid() && Snap() == Read(old(Snap())).0 && result == Read(old(Snap())).1
      ensures Unread(Snap()) == old(Unread(Snap())) && Held(Snap()) == old(Held(Snap()))
      ensures result.Empty? <==> Unread(Snap()) == []
      ensures result.Chunk? ==>
        && result.addr + result.size <= data.Length
        && Unread(Snap())[0] == Slot(result.addr, data[result.addr..result.addr + result.size])
    {
      hide Span, Load;
      ReadKeeps(Snap());
      if Dist(rtReading, rtWriting) == 0 {
        rtWriting := writing;
        if Dist(rtReading, rtWriting) == 0 {
          result := Empty;
          return;
        }
      }
      var index := rtReading % blocks;
      result := Chunk(DataAddr(index), Load(data[..], 8 * index + 4));
    }

    method ReturnReadChunk(result: ReadResult)
      requires Valid() && (result.Chunk? ==> rtReading != rtWriting)
      modifies this`rtReading, this`reading
      ensures Valid() && Snap() == if result.Chunk? then Return(old(Snap())) else old(Snap())
      ensures result.Chunk? ==> |old(Unread(Snap()))| > 0 && Unread(Snap()) == old(Unread(Snap()))[1..] && Held(Snap()) == []
    {
      hide Span, Load;
      if result.Chunk? {
        ReturnKeeps(Snap());
        rtReading := Plus(rtReading, Load(data[..], 8 * (rtReading % blocks)));
        reading := rtReading;
      }
    }

    /** `batch_read`; the handle's cursors are the ring's own. */
    method BatchRead() returns (some: bool)
      requires Valid()
      modifies this`rtWriting
      ensures Valid() && Unread(Snap()) == old(Unread(Snap())) && Held(Snap()) == old(Held(Snap()))
      ensures Snap() == Read(old(Snap())).0
      ensures some <==> Unread(Snap()) != []
      ensures some <==> rtReading != rtWriting
    {
      hide Span, Load;
      ReadKeeps(Snap());
      if rtWriting == rtReading {
        rtWriting := writing;
      }
      some := rtReading != rtWriting;
    }

    /** `next` of a batch handle. */
    method NextOfBatch() returns (result: ReadResult)
      requires Valid() && rtReading != rtWriting
      modifies this`rtReading
      ensures Valid() && Snap() == BatchNext(old(Snap()))
      ensures |old(Unread(Snap()))| > 0 && Unread(Snap()) == old(Unread(Snap()))[1..]
      ensures Held(Snap()) == old(Held(Snap())) + [old(Unread(Snap()))[0]]
      ensures result == Chunk(old(Unread(Snap()))[0].addr, |old(Unread(Snap()))[0].data|)
    {
      hide Span, Load;
      NextKeeps(Snap());
      ReadKeeps(Snap());
      var index := rtReading % blocks;
      result := Chunk(DataAddr(index), Load(data[..], 8 * index + 4));
      rtReading := Plus(rtReading, Load(data[..], 8 * index));
    }

    /** `return_batch_read_chunks`. */
    method ReturnBatch()
      requires Valid()
      modifies this`reading
      ensures Valid() && Snap() == BatchReturn(old(Snap()))
      ensures Unread(Snap()) == old(Unread(Snap())) && Held(Snap()) == []
    {
      hide Span;
      BatchReturnKeeps(Snap());
      reading := rtReading;
    }

    /** The payload copy between `AllocWriteChunk` and `CommitWriteChunk`. */
    method CopyPayload(addr: nat, payload: seq<byte>)
      requires Valid() && Pending(Snap(), |payload|) && addr == DataAt(blocks, wtWriting % blocks, |payload|)
      modifies data
      ensures Valid() && Pending(Snap(), |payload|) && Draft(Snap()) == Slot(addr, payload)
      ensures Unread(Snap()) == old(Unread(Snap())) && Held(Snap()) == old(Held(Snap()))
    {
      hide Inv, Copied, Drafting, Pending, DataAt, Draft;
      ghost var s0 := Snap();
      CopyStart(s0, payload);
      CopyFits(s0, addr, payload);
      CopyAll(s0, addr, payload);
      CopyDone(s0, Snap(), addr, payload);
    }

    method CopyAll(ghost s0: Ring, addr: nat, payload: seq<byte>)
      requires addr + |payload| <= data.Length && Copied(s0, Snap(), addr, payload, 0)
      modifies data
      ensures Copied(s0, Snap(), addr, payload, |payload|)
    {
      hide Copied;
      var k := 0;
      while k < |payload|
        invariant k <= |payload| && Copied(s0, Snap(), addr, payload, k)
      {
        ghost var s := Snap();
        CopyStep(s0, s, addr, payload, k);
        data[addr + k] := payload[k];
        assert Snap() == Fill(s, addr, k, payload[k]);
        k := k + 1;
      }
    }
  }
}
