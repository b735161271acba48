/** batch.c in its own form: one static buffer filled entry by entry and sent when it
    closes. `open` is the abstract value the buffer encodes. */
module Batcher154 {
  import opened Wire
  import opened Batch154

  /** The link's log after a batch closed (none is []). */
  function Sent(was: seq<Attempt>, closed: seq<Packet>, taken: bool): (r: seq<Attempt>)
    requires WellFormed(closed)
  {
    if closed == [] then was else was + [Attempt(Payload(closed), taken)]
  }

  /** One drop for each packet of a frame the link would not take. */
  function Dropped(was: uint32, closed: seq<Packet>, taken: bool): (r: uint32) {
    if closed == [] || taken then was else Add32(was, |closed|)
  }

  class Batcher {
    const buf: array<byte>
    var used: nat
    var count: nat
    var baseUs: uint64
    var lastUs: uint64
    var batchChannel: byte
    var droppedPackets: uint32
    var attempts: seq<Attempt>
    ghost var open: seq<Packet>

    ghost predicate Valid()
      reads this, buf
    {
      && buf.Length == MAX_BATCH_BYTES
      && WellFormed(open)
      && count == |open| && used == BATCH_HEADER + Size(open)
      && (open != [] ==>
            && baseUs == open[0].ts && batchChannel == open[0].channel && lastUs == LastTs(open, 0)
            && buf[BATCH_HEADER..used] == Entries(open, open[0].ts, open[0].channel))
    }

    constructor ()
      ensures Valid() && fresh(buf) && open == [] && attempts == [] && droppedPackets == 0
    {
      buf := new byte[MAX_BATCH_BYTES](_ => 0);
      used, count, baseUs, lastUs, batchChannel, droppedPackets := BATCH_HEADER, 0, 0, 0, 0, 0;
      attempts, open := [], [];
    }

    /** sn_link_send; a refusal is counted in packets, not frames. */
    method LinkSend(offer: Offer, packets: nat, taken: bool)
      modifies this`attempts, this`droppedPackets
      ensures attempts == old(attempts) + [Attempt(offer, taken)]
      ensures droppedPackets == if taken then old(droppedPackets) else Add32(old(droppedPackets), packets)
    {
      attempts := attempts + [Attempt(offer, taken)];
      if !taken {
        droppedPackets := Add32(droppedPackets, packets);
      }
    }

    /** The header is written at the flush, because the count is not known before. */
    method WriteHeader()
      requires buf.Length == MAX_BATCH_BYTES && count < 0x100
      modifies buf
      ensures buf[..BATCH_HEADER] == ToLe(baseUs, 8) + [batchChannel, count]
      ensures buf[BATCH_HEADER..] == old(buf[BATCH_HEADER..])
    {
      PutLe64(buf, baseUs);
      buf[8] := batchChannel;
      buf[9] := count;
      assert buf[..BATCH_HEADER] == buf[..8] + [buf[8], buf[9]];
    }

    /** One frame of everything open, or none; runs inside the batch lock.
        `taken` is the link's answer. */
    method FlushLocked(taken: bool)
      requires Valid()
      modifies this`used, this`count, this`attempts, this`droppedPackets, this`open, buf
      ensures Valid() && open == []
      ensures attempts == Sent(old(attempts), old(open), taken)
      ensures droppedPackets == Dropped(old(droppedPackets), old(open), taken)
    {
      if count == 0 {
        return;
      }
      EntriesSize(open, open[0].ts, open[0].channel);
      if count == 1 {
        var one := SingleFrame();
        LinkSend(Offer(OnePacket, one), 1, taken);
      } else {
        ghost var entries := buf[BATCH_HEADER..used];
        WriteHeader();
        assert buf[BATCH_HEADER..used] == buf[BATCH_HEADER..][..used - BATCH_HEADER] == entries;
        assert buf[..used] == buf[..BATCH_HEADER] + buf[BATCH_HEADER..used];
        assert Payload(open) == Offer(PacketBatch, buf[..used]);
        LinkSend(Offer(PacketBatch, buf[..used]), count, taken);
      }
      count, used, open := 0, BATCH_HEADER, [];
    }

    /** The PACKET a batch of one is sent as: the entry, its metadata moved in front. */
    method SingleFrame() returns (one: seq<byte>)
      requires Valid() && count == 1
      ensures one == Payload(open).payload
    {
      ghost var p := open[0];
      assert open == [p] && open[1..] == [];
      var entry := buf[BATCH_HEADER..used];
      EntriesSize(open, p.ts, p.channel);
      assert entry == EntryBytes(p, p.ts) + [];
      EntryFields(p, p.ts, []);
      assert entry[3] == ToU8(p.rssi);
      var len := entry[4];
      var meta := [batchChannel, entry[2], entry[3], 0] + ToLe(baseUs, 8);
      one := meta + entry[ENTRY_LEN..ENTRY_LEN + len];
    }

    /** sn_batch_add, under the lock and without its timer. The PSDU is cut to 127 bytes;
        at most one frame is sent, and `taken` is the link's answer to it. */
    method Add(channel: byte, ts: uint64, lqi: byte, rssi: int8, psdu: seq<byte>, taken: bool)
      requires Valid() && |open| < MAX_ENTRIES
      modifies this, buf
      ensures Valid() && |open| < MAX_ENTRIES
      ensures var r := Batch154.Add(old(open), Packet(channel, ts, lqi, rssi, Cut(psdu)));
        && WellFormed(r.closed)
        && open == r.open
        && attempts == Sent(old(attempts), r.closed, taken)
        && droppedPackets == Dropped(old(droppedPackets), r.closed, taken)
    {
      var data := Cut(psdu);
      ghost var p := Packet(channel, ts, lqi, rssi, data);
      AddKeeps(open, p);
      if count > 0 && (channel != batchChannel || ts < lastUs || ts - lastUs > MAX_DT
                       || used + ENTRY_LEN + |data| > MAX_BATCH_BYTES) {
        FlushLocked(taken);
      }
      Append(channel, ts, lqi, rssi, data);
      if count == MAX_ENTRIES {
        FlushLocked(taken);
      }
    }

    /** The entry written behind the ones already there. */
    method Append(channel: byte, ts: uint64, lqi: byte, rssi: int8, data: seq<byte>)
      requires Valid() && |open| < MAX_ENTRIES && |data| <= MAX_PSDU
      requires open != [] ==> Joins(open, Packet(channel, ts, lqi, rssi, data))
      modifies this`used, this`count, this`baseUs, this`lastUs, this`batchChannel, this`open, buf
      ensures Valid() && open == old(open) + [Packet(channel, ts, lqi, rssi, data)]
    {
      ghost var p, was := Packet(channel, ts, lqi, rssi, data), open;
      JoinKeeps(open, p);
      SizeSnoc(open, p);
      if count == 0 {
        baseUs, batchChannel, lastUs := ts, channel, ts;
      } else {
        EntriesSize(open, baseUs, batchChannel);
      }
      EntriesSnoc(open, p, baseUs, batchChannel);
      assert lastUs == LastTs(open, baseUs);
      var entry := ToLe((ts - lastUs) % 0x1_0000, 2) + [lqi, ToU8(rssi), |data|] + data;
      assert entry == EntryBytes(p, lastUs);
      assert buf[BATCH_HEADER..used] == Entries(open, baseUs, batchChannel);
      WriteAt(entry);
      used := used + |entry|;
      lastUs := ts;
      count := count + 1;
      open := open + [p];
    }

    /** The byte stores of one entry. */
    method WriteAt(entry: seq<byte>)
      requires BATCH_HEADER <= used && used + |entry| <= buf.Length
      modifies buf
      ensures buf[BATCH_HEADER..used + |entry|] == old(buf[BATCH_HEADER..used]) + entry
    {
      for i := 0 to |entry|
        invariant forall k :: 0 <= k < used ==> buf[k] == old(buf[k])
        invariant forall k :: 0 <= k < i ==> buf[used + k] == entry[k]
      {
        buf[used + i] := entry[i];
      }
    }

    method ResetCounters()
      modifies this`droppedPackets
      ensures droppedPackets == 0
    {
      droppedPackets := 0;
    }
  }
}
