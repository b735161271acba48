/** The BLE batcher of radio_ble.c in its own form: forward(), ble_flush_locked() and
    send_alone() over one static buffer. */
module BatcherBle {
  import opened Wire
  import opened BatchBle

  /** The counters the batcher keeps for the STATS frame. */
  datatype Counters = Counters(captured: uint32, forwarded: uint32, dropped: uint32, oversized: uint32)

  /** The link's log after a batch closed (none is []). */
  function Sent(was: seq<Attempt>, closed: seq<Capture>, taken: bool): (r: seq<Attempt>)
    requires WellFormed(closed)
  {
    if closed == [] then was else was + [Attempt(Payload(closed), taken)]
  }

  /** Counted in packets, not frames. */
  function Counted(was: Counters, closed: seq<Capture>, taken: bool): (r: Counters) {
    if closed == [] then was
    else if taken then was.(forwarded := Add32(was.forwarded, |closed|))
    else was.(dropped := Add32(was.dropped, |closed|))
  }

  class BleBatcher {
    const bbuf: array<byte>
    var bused: nat
    var bcount: nat
    var bbaseUs: uint64
    var blastUs: uint64
    var counters: Counters
    var attempts: seq<Attempt>
    ghost var open: seq<Capture>

    ghost predicate Valid()
      reads this, bbuf
    {
      && bbuf.Length == BLE_BATCH_BUF
      && WellFormed(open)
      && bcount == |open| && bused == BLE_BATCH_HEADER + Size(open)
      && (open != [] ==>
            && bbaseUs == open[0].ts && blastUs == LastTs(open, 0)
            && bbuf[BLE_BATCH_HEADER..bused] == Entries(open, open[0].ts))
    }

    constructor ()
      ensures Valid() && fresh(bbuf) && open == [] && attempts == [] && counters == Counters(0, 0, 0, 0)
    {
      bbuf := new byte[BLE_BATCH_BUF](_ => 0);
      bused, bcount, bbaseUs, blastUs := BLE_BATCH_HEADER, 0, 0, 0;
      counters, attempts, open := Counters(0, 0, 0, 0), [], [];
    }

    /** sn_link_send and the counting of what it returned. */
    method LinkSend(offer: Offer, packets: nat, taken: bool)
      modifies this`attempts, this`counters
      ensures attempts == old(attempts) + [Attempt(offer, taken)]
      ensures counters == if taken then old(counters).(forwarded := Add32(old(counters).forwarded, packets))
                          else old(counters).(dropped := Add32(old(counters).dropped, packets))
    {
      attempts := attempts + [Attempt(offer, taken)];
      if taken {
        counters := counters.(forwarded := Add32(counters.forwarded, packets));
      } else {
        counters := counters.(dropped := Add32(counters.dropped, packets));
      }
    }

    method WriteHeader()
      requires bbuf.Length == BLE_BATCH_BUF && bcount < 0x100
      modifies bbuf
      ensures bbuf[..BLE_BATCH_HEADER] == ToLe(bbaseUs, 8) + [bcount]
      ensures bbuf[BLE_BATCH_HEADER..] == old(bbuf[BLE_BATCH_HEADER..])
    {
      PutLe64(bbuf, bbaseUs);
      bbuf[8] := bcount;
      assert bbuf[..BLE_BATCH_HEADER] == bbuf[..8] + [bbuf[8]];
    }

    /** One frame of everything open, or none; runs inside the lock `block`.
        `taken` is the link's answer. */
    method FlushLocked(taken: bool)
      requires Valid()
      modifies this`bused, this`bcount, this`attempts, this`counters, this`open, bbuf
      ensures Valid() && open == []
      ensures attempts == Sent(old(attempts), old(open), taken)
      ensures counters == Counted(old(counters), old(open), taken)
    {
      if bcount == 0 {
        return;
      }
      EntriesSize(open, open[0].ts);
      if bcount == 1 {
        var alone := SendAlone();
        LinkSend(Offer(OnePacket, alone), 1, taken);
      } else {
        SendWhole(taken);
      }
      bcount, bused, open := 0, BLE_BATCH_HEADER, [];
    }

    /** A batch of two or more, its header written now that the count is known. */
    method SendWhole(taken: bool)
      requires Valid() && bcount > 1
      modifies this`attempts, this`counters, bbuf
      ensures attempts == Sent(old(attempts), open, taken)
      ensures counters == Counted(old(counters), open, taken)
    {
      EntriesSize(open, open[0].ts);
      ghost var entries := bbuf[BLE_BATCH_HEADER..bused];
      WriteHeader();
      assert bbuf[BLE_BATCH_HEADER..bused] == bbuf[BLE_BATCH_HEADER..][..bused - BLE_BATCH_HEADER] == entries;
      assert bbuf[..bused] == bbuf[..BLE_BATCH_HEADER] + bbuf[BLE_BATCH_HEADER..bused];
      assert Payload(open) == Offer(BleBatch, bbuf[..bused]);
      LinkSend(Offer(BleBatch, bbuf[..bused]), bcount, taken);
    }

    /** The PACKET a batch of one is sent as, its fields read back from the entry. */
    method SendAlone() returns (alone: seq<byte>)
      requires Valid() && bcount == 1
      ensures alone == Payload(open).payload
    {
      ghost var c := open[0];
      assert open == [c] && open[1..] == [];
      var entry := bbuf[BLE_BATCH_HEADER..bused];
      EntriesSize(open, c.ts);
      assert entry == EntryBytes(c, c.ts) + [];
      EntryFields(c, c.ts, []);
      var orig, len := Le16(entry[2], entry[3]), Le16(entry[5], entry[6]);
      alone := ToLe(bbaseUs, 8) + ToLe(orig, 2) + [entry[4], 0] + entry[BLE_ENTRY_LEN..BLE_ENTRY_LEN + len];
      assert alone == Meta(c) + c.bytes;
    }

    /** forward(), from its length computation to its last flush; the event counting and
        the timer are modelled apart. At most one frame is sent. */
    method Forward(ts: uint64, h4: byte, data: seq<byte>, taken: bool)
      requires Valid() && |open| < BLE_MAX_ENTRIES && |data| <= 65534
      modifies this, bbuf
      ensures Valid() && |open| < BLE_MAX_ENTRIES
      ensures var r := BatchBle.Add(old(open), Captured(ts, h4, data));
        && WellFormed(r.closed)
        && open == r.open
        && attempts == Sent(old(attempts), r.closed, taken)
        && counters == Counted(Taken(old(counters), data), r.closed, taken)
    {
      var full := |data| + 1;
      var take, flags: byte := full, 0;
      if take > BLE_MAX_PACKET {
        take, flags := BLE_MAX_PACKET, FLAG_TRUNCATED;
      }
      counters := Taken(counters, data);
      CapturedIsSound(ts, h4, data);
      assert Captured(ts, h4, data) == Capture(ts, full, flags, [h4] + data[..take - 1]);
      Enter(ts, full, flags, [h4] + data[..take - 1], taken);
    }

    /** Closes the batch the packet cannot join, appends it, and closes a full batch. */
    method Enter(ts: uint64, full: uint16, flags: byte, bytes: seq<byte>, taken: bool)
      requires Valid() && |open| < BLE_MAX_ENTRIES && Sound(Capture(ts, full, flags, bytes))
      modifies this`bused, this`bcount, this`bbaseUs, this`blastUs, this`attempts, this`counters, this`open, bbuf
      ensures Valid() && |open| < BLE_MAX_ENTRIES
      ensures var r := BatchBle.Add(old(open), Capture(ts, full, flags, bytes));
        && WellFormed(r.closed)
        && open == r.open
        && attempts == Sent(old(attempts), r.closed, taken)
        && counters == Counted(old(counters), r.closed, taken)
    {
      AddKeeps(open, Capture(ts, full, flags, bytes));
      MakeRoom(ts, full, flags, bytes, taken);
      Append(ts, full, flags, bytes);
      CloseIfFull(taken);
    }

    method CloseIfFull(taken: bool)
      requires Valid()
      modifies this`bused, this`bcount, this`attempts, this`counters, this`open, bbuf
      ensures Valid()
      ensures var closed := if |old(open)| == BLE_MAX_ENTRIES then old(open) else [];
        && open == (if closed == [] then old(open) else [])
        && attempts == Sent(old(attempts), closed, taken)
        && counters == Counted(old(counters), closed, taken)
    {
      if bcount == BLE_MAX_ENTRIES {
        FlushLocked(taken);
      }
    }

    /** Sends the open batch if the packet cannot join it. */
    method MakeRoom(ts: uint64, full: uint16, flags: byte, bytes: seq<byte>, taken: bool)
      requires Valid()
      modifies this`bused, this`bcount, this`attempts, this`counters, this`open, bbuf
      ensures Valid()
      ensures var closed := if old(open) != [] && !Joins(old(open), Capture(ts, full, flags, bytes)) then old(open) else [];
        && open == (if closed == [] then old(open) else [])
        && attempts == Sent(old(attempts), closed, taken)
        && counters == Counted(old(counters), closed, taken)
    {
      var take := |bytes|;
      if bcount > 0 && (ts < blastUs || ts - blastUs > BLE_MAX_DT || bused + BLE_ENTRY_LEN + take > BLE_BATCH_BUF) {
        FlushLocked(taken);
      }
    }

    method Append(ts: uint64, full: uint16, flags: byte, bytes: seq<byte>)
      requires Valid() && |open| < BLE_MAX_ENTRIES && Sound(Capture(ts, full, flags, bytes))
      requires open != [] ==> Joins(open, Capture(ts, full, flags, bytes))
      modifies this`bused, this`bcount, this`bbaseUs, this`blastUs, this`open, bbuf
      ensures Valid() && open == old(open) + [Capture(ts, full, flags, bytes)]
    {
      ghost var c := Capture(ts, full, flags, bytes);
      JoinBytes(open, c);
      if bcount == 0 {
        bbaseUs, blastUs := ts, ts;
        assert open + [c] == [c] && bbuf[BLE_BATCH_HEADER..bused] == [];
      }
      var entry := ToLe((ts - blastUs) % 0x1_0000, 2) + ToLe(full, 2) + [flags] + ToLe(|bytes|, 2) + bytes;
      assert entry == EntryBytes(c, blastUs);
      WriteAt(entry);
      bused := bused + |entry|;
      blastUs := ts;
      bcount := bcount + 1;
      open := open + [c];
    }

    method WriteAt(entry: seq<byte>)
      requires BLE_BATCH_HEADER <= bused && bused + |entry| <= bbuf.Length
      modifies bbuf
      ensures bbuf[BLE_BATCH_HEADER..bused + |entry|] == old(bbuf[BLE_BATCH_HEADER..bused]) + entry
    {
      for i := 0 to |entry|
        invariant forall k :: 0 <= k < bused ==> bbuf[k] == old(bbuf[k])
        invariant forall k :: 0 <= k < i ==> bbuf[bused + k] == entry[k]
      {
        bbuf[bused + i] := entry[i];
      }
    }

    method ResetCounters()
      modifies this`counters
      ensures counters == Counters(0, 0, 0, 0)
    {
      counters := Counters(0, 0, 0, 0);
    }
  }

  /** captured++, and oversized++ when the packet had to be cut. */
  function Taken(c: Counters, data: seq<byte>): (r: Counters) {
    c.(captured := Add32(c.captured, 1),
       oversized := if |data| + 1 > BLE_MAX_PACKET then Add32(c.oversized, 1) else c.oversized)
  }
}
