/** The BLE batcher's wire format: what a batch encodes to, and the decoder the host
    needs to get every packet back. */
module BatchBle {
  import opened Wire

  const BLE_MAX_ENTRIES := 32
  const BLE_MAX_PACKET := 300
  const BLE_MAX_DT := 0xFFFF
  const BLE_BATCH_HEADER := 9    // u64 base, u8 count
  const BLE_ENTRY_LEN := 7       // u16 dt, u16 orig_len, u8 flags, u16 len
  const BLE_META_LEN := 12
  const BLE_BATCH_BUF := 2048
  const FLAG_TRUNCATED: byte := 1
  const H4_EVENT: byte := 4
  const H4_ISO: byte := 5

  /** A packet as it is forwarded: `bytes` starts with its H4 type. */
  datatype Capture = Capture(ts: uint64, orig: uint16, flags: byte, bytes: seq<byte>)

  /** What forward() makes of a buffer of the controller's: the H4 byte back in front,
      cut to 300 bytes in all. The length field is sixteen bits, so a buffer of 65535
      bytes would wrap it to zero; the controller's buffers hold a few hundred. */
  function Captured(ts: uint64, h4: byte, data: seq<byte>): (c: Capture)
    requires |data| <= 65534
  {
    var full := |data| + 1;
    if full > BLE_MAX_PACKET then Capture(ts, full, FLAG_TRUNCATED, [h4] + data[..BLE_MAX_PACKET - 1])
    else Capture(ts, full, 0, [h4] + data)
  }

  /** The relation between the fields of a forwarded packet. */
  predicate Sound(c: Capture) {
    && 1 <= c.orig
    && |c.bytes| == (if c.orig > BLE_MAX_PACKET then BLE_MAX_PACKET else c.orig)
    && c.flags == (if c.orig > BLE_MAX_PACKET then FLAG_TRUNCATED else 0)
  }

  /** Whatever arrives, the record says exactly how long it was, carries its H4 byte and
      as much of it as fits, and is flagged exactly when it was cut. */
  lemma CapturedIsSound(ts: uint64, h4: byte, data: seq<byte>)
    requires |data| <= 65534
    ensures var c := Captured(ts, h4, data);
      && Sound(c) && c.orig == |data| + 1 && c.ts == ts
      && c.bytes[0] == h4 && c.bytes[1..] <= data
      && (c.flags == FLAG_TRUNCATED <==> |c.bytes| < c.orig)
      && (|data| < BLE_MAX_PACKET ==> c.bytes == [h4] + data)
  {
    var c := Captured(ts, h4, data);
    if |data| + 1 > BLE_MAX_PACKET {
      assert c.bytes[1..] == data[..BLE_MAX_PACKET - 1];
    } else {
      assert c.bytes[1..] == data;
    }
  }

  function EntryBytes(c: Capture, prev: uint64): (s: seq<byte>)
    requires Sound(c)
    ensures |s| == BLE_ENTRY_LEN + |c.bytes|
  {
    ToLe((c.ts - prev) % 0x1_0000, 2) + ToLe(c.orig, 2) + [c.flags] + ToLe(|c.bytes|, 2) + c.bytes
  }

  predicate Chain(cs: seq<Capture>, prev: uint64)
    decreases |cs|
  {
    cs != [] ==>
      && Sound(cs[0])
      && prev <= cs[0].ts <= prev + BLE_MAX_DT
      && Chain(cs[1..], cs[0].ts)
  }

  function Entries(cs: seq<Capture>, prev: uint64): (s: seq<byte>)
    requires Chain(cs, prev)
    decreases |cs|
  {
    if cs == [] then [] else EntryBytes(cs[0], prev) + Entries(cs[1..], cs[0].ts)
  }

  function Size(cs: seq<Capture>): (n: nat) {
    if cs == [] then 0 else BLE_ENTRY_LEN + |cs[0].bytes| + Size(cs[1..])
  }

  /** What the batcher keeps true of an open batch. */
  predicate WellFormed(open: seq<Capture>) {
    && |open| <= BLE_MAX_ENTRIES
    && BLE_BATCH_HEADER + Size(open) <= BLE_BATCH_BUF
    && (open != [] ==> Chain(open, open[0].ts))
  }

  function Meta(c: Capture): (s: seq<byte>)
    ensures |s| == BLE_META_LEN
  {
    ToLe(c.ts, 8) + ToLe(c.orig, 2) + [c.flags, 0]
  }

  function Payload(open: seq<Capture>): (o: Offer)
    requires open != [] && WellFormed(open)
  {
    if |open| == 1 then Offer(OnePacket, Meta(open[0]) + open[0].bytes)
    else Offer(BleBatch, ToLe(open[0].ts, 8) + [|open|] + Entries(open, open[0].ts))
  }

  // ---- the host's side, read off the encoder ----

  function DecodePacket(s: seq<byte>): (r: Option<seq<Capture>>) {
    if |s| < BLE_META_LEN then None
    else
      var ts, orig := FromLe(s[0..8]), FromLe(s[8..10]);
      if ts >= 0x1_0000_0000_0000_0000 || orig >= 0x1_0000 then None
      else Some([Capture(ts, orig, s[10], s[BLE_META_LEN..])])
  }

  function DecodeEntries(s: seq<byte>, n: nat, prev: uint64): (r: Option<seq<Capture>>)
    decreases n
  {
    if n == 0 then (if s == [] then Some([]) else None)
    else if |s| < BLE_ENTRY_LEN || |s| < BLE_ENTRY_LEN + Le16(s[5], s[6]) then None
    else
      var len := Le16(s[5], s[6]);
      var ts, orig := prev + Le16(s[0], s[1]), Le16(s[2], s[3]);
      if ts >= 0x1_0000_0000_0000_0000 then None
      else
        var c := Capture(ts, orig, s[4], s[BLE_ENTRY_LEN..BLE_ENTRY_LEN + len]);
        match DecodeEntries(s[BLE_ENTRY_LEN + len..], n - 1, ts)
        case None => None
        case Some(cs) => Some([c] + cs)
  }

  function DecodeBatch(s: seq<byte>): (r: Option<seq<Capture>>) {
    if |s| < BLE_BATCH_HEADER then None
    else
      var base := FromLe(s[0..8]);
      if base >= 0x1_0000_0000_0000_0000 then None
      else DecodeEntries(s[BLE_BATCH_HEADER..], s[8], base)
  }

  function Decode(o: Offer): (r: Option<seq<Capture>>) {
    match o.kind
    case OnePacket => DecodePacket(o.payload)
    case BleBatch => DecodeBatch(o.payload)
    case _ => None
  }

  lemma {:induction false} EntriesSize(cs: seq<Capture>, prev: uint64)
    requires Chain(cs, prev)
    ensures |Entries(cs, prev)| == Size(cs)
    decreases |cs|
  {
    if cs != [] {
      EntriesSize(cs[1..], cs[0].ts);
    }
  }

  /** No delta wraps. */
  lemma EntryIs(c: Capture, prev: uint64)
    requires Sound(c) && prev <= c.ts <= prev + BLE_MAX_DT
    ensures EntryBytes(c, prev) == ToLe(c.ts - prev, 2) + ToLe(c.orig, 2) + [c.flags] + ToLe(|c.bytes|, 2) + c.bytes
  {
    assert (c.ts - prev) % 0x1_0000 == c.ts - prev;
  }

  lemma EntryFields(c: Capture, prev: uint64, rest: seq<byte>)
    requires Sound(c) && prev <= c.ts <= prev + BLE_MAX_DT
    ensures var s := EntryBytes(c, prev) + rest;
      && prev + Le16(s[0], s[1]) == c.ts
      && Le16(s[2], s[3]) == c.orig && s[4] == c.flags && Le16(s[5], s[6]) == |c.bytes|
      && s[BLE_ENTRY_LEN..BLE_ENTRY_LEN + |c.bytes|] == c.bytes
      && s[BLE_ENTRY_LEN + |c.bytes|..] == rest
  {
    var s := EntryBytes(c, prev) + rest;
    var dt: uint16 := c.ts - prev;
    EntryIs(c, prev);
    var head := ToLe(dt, 2) + ToLe(c.orig, 2) + [c.flags] + ToLe(|c.bytes|, 2);
    assert s == head + c.bytes + rest;
    assert prev + Le16(s[0], s[1]) == c.ts && Le16(s[2], s[3]) == c.orig && s[4] == c.flags && Le16(s[5], s[6]) == |c.bytes| by {
      HeadReads(dt, c.orig, c.flags, |c.bytes|);
      assert forall i :: 0 <= i < BLE_ENTRY_LEN ==> s[i] == head[i];
    }
    assert s[BLE_ENTRY_LEN..BLE_ENTRY_LEN + |c.bytes|] == c.bytes && s[BLE_ENTRY_LEN + |c.bytes|..] == rest by {
      Parts(head, c.bytes, rest);
    }
  }

  lemma HeadReads(dt: uint16, orig: uint16, flags: byte, len: uint16)
    ensures var h := ToLe(dt, 2) + ToLe(orig, 2) + [flags] + ToLe(len, 2);
      && |h| == BLE_ENTRY_LEN
      && Le16(h[0], h[1]) == dt && Le16(h[2], h[3]) == orig && h[4] == flags && Le16(h[5], h[6]) == len
  {
    Le16Reads(dt);
    Le16Reads(orig);
    Le16Reads(len);
  }

  lemma Parts(a: seq<byte>, b: seq<byte>, c: seq<byte>)
    ensures var s := a + b + c; s[|a|..|a| + |b|] == b && s[|a| + |b|..] == c
  {
  }

  lemma DecodeOne(s: seq<byte>, c: Capture, prev: uint64, rest: seq<byte>, n: nat, cs: seq<Capture>)
    requires Sound(c) && prev <= c.ts <= prev + BLE_MAX_DT
    requires n > 0 && s == EntryBytes(c, prev) + rest && DecodeEntries(rest, n - 1, c.ts) == Some(cs)
    ensures DecodeEntries(s, n, prev) == Some([c] + cs)
  {
    EntryFields(c, prev, rest);
  }

  lemma DecodeFirst(s: seq<byte>, cs: seq<Capture>, prev: uint64, rest: seq<byte>)
    requires cs != [] && Sound(cs[0]) && prev <= cs[0].ts <= prev + BLE_MAX_DT
    requires s == EntryBytes(cs[0], prev) + rest && DecodeEntries(rest, |cs| - 1, cs[0].ts) == Some(cs[1..])
    ensures DecodeEntries(s, |cs|, prev) == Some(cs)
  {
    DecodeOne(s, cs[0], prev, rest, |cs|, cs[1..]);
    assert [cs[0]] + cs[1..] == cs;
  }

  lemma {:induction false} DecodeEntriesInverts(s: seq<byte>, cs: seq<Capture>, prev: uint64)
    requires Chain(cs, prev) && s == Entries(cs, prev)
    ensures DecodeEntries(s, |cs|, prev) == Some(cs)
    decreases |cs|
  {
    if cs != [] {
      var rest := Entries(cs[1..], cs[0].ts);
      DecodeEntriesInverts(rest, cs[1..], cs[0].ts);
      DecodeFirst(s, cs, prev, rest);
    }
  }

  lemma DecodePacketInverts(c: Capture)
    ensures DecodePacket(Meta(c) + c.bytes) == Some([c])
  {
    var s := Meta(c) + c.bytes;
    assert s[0..8] == ToLe(c.ts, 8) && s[8..10] == ToLe(c.orig, 2);
    assert s[BLE_META_LEN..] == c.bytes;
    Le64RoundTrip(c.ts);
    Le16RoundTrip(c.orig);
  }

  lemma BatchFields(base: uint64, n: byte, entries: seq<byte>)
    ensures var s := ToLe(base, 8) + [n] + entries;
      FromLe(s[0..8]) == base && s[8] == n && s[BLE_BATCH_HEADER..] == entries
  {
    var s := ToLe(base, 8) + [n] + entries;
    assert s[0..8] == ToLe(base, 8);
    Le64RoundTrip(base);
  }

  /** Every frame the batcher sends decodes to exactly the packets that were in it. */
  lemma RoundTrip(open: seq<Capture>)
    requires open != [] && WellFormed(open)
    ensures Decode(Payload(open)) == Some(open)
  {
    if |open| == 1 {
      DecodePacketInverts(open[0]);
      assert [open[0]] == open;
    } else {
      var entries := Entries(open, open[0].ts);
      BatchFields(open[0].ts, |open|, entries);
      DecodeEntriesInverts(entries, open, open[0].ts);
    }
  }

  /** Two entries or more in a batch, 2048 bytes at most, and never more bytes than a
      PACKET frame for each packet would take. */
  lemma PayloadBounds(open: seq<Capture>)
    requires open != [] && WellFormed(open)
    ensures |Payload(open).payload| <= BLE_BATCH_BUF
    ensures HEADER_LEN + |Payload(open).payload| <= 22 * |open| + PacketBytes(open)
    ensures Payload(open).kind == BleBatch <==> 2 <= |open|
  {
    SizeIsBytes(open);
    if |open| > 1 {
      EntriesSize(open, open[0].ts);
    } else {
      assert PacketBytes(open) == |open[0].bytes| + PacketBytes(open[1..]);
    }
  }

  function PacketBytes(cs: seq<Capture>): (n: nat) {
    if cs == [] then 0 else |cs[0].bytes| + PacketBytes(cs[1..])
  }

  lemma {:induction false} SizeIsBytes(cs: seq<Capture>)
    ensures Size(cs) == BLE_ENTRY_LEN * |cs| + PacketBytes(cs)
  {
    if cs != [] {
      SizeIsBytes(cs[1..]);
    }
  }

  // ---- how a batch grows ----

  lemma {:induction false} SizeSnoc(cs: seq<Capture>, c: Capture)
    ensures Size(cs + [c]) == Size(cs) + BLE_ENTRY_LEN + |c.bytes|
    decreases |cs|
  {
    if cs == [] {
      assert cs + [c] == [c] && [c][1..] == [];
    } else {
      assert (cs + [c])[1..] == cs[1..] + [c];
      SizeSnoc(cs[1..], c);
    }
  }

  function LastTs(cs: seq<Capture>, prev: uint64): (t: uint64) {
    if cs == [] then prev else cs[|cs| - 1].ts
  }

  lemma {:induction false} ChainSnoc(cs: seq<Capture>, c: Capture, prev: uint64)
    requires Chain(cs, prev) && Sound(c)
    requires LastTs(cs, prev) <= c.ts <= LastTs(cs, prev) + BLE_MAX_DT
    ensures Chain(cs + [c], prev)
    decreases |cs|
  {
    if cs == [] {
      assert cs + [c] == [c] && [c][1..] == [];
    } else {
      assert (cs + [c])[1..] == cs[1..] + [c];
      ChainSnoc(cs[1..], c, cs[0].ts);
    }
  }

  lemma {:induction false} EntriesSnoc(cs: seq<Capture>, c: Capture, prev: uint64)
    requires Chain(cs, prev) && Sound(c) && Chain(cs + [c], prev)
    ensures Entries(cs + [c], prev) == Entries(cs, prev) + EntryBytes(c, LastTs(cs, prev))
    decreases |cs|
  {
    if cs == [] {
      assert cs + [c] == [c] && [c][1..] == [];
      var last := EntryBytes(c, prev);
      assert Entries([c], prev) == last + [] == [] + last;
    } else {
      assert (cs + [c])[1..] == cs[1..] + [c];
      EntriesSnoc(cs[1..], c, cs[0].ts);
      Reassociate(EntryBytes(cs[0], prev), Entries(cs[1..], cs[0].ts), EntryBytes(c, LastTs(cs, prev)));
    }
  }

  lemma Reassociate(a: seq<byte>, b: seq<byte>, c: seq<byte>)
    ensures a + (b + c) == (a + b) + c
  {
  }

  /** Whether a packet may join the open batch: the three tests of forward(). */
  predicate Joins(open: seq<Capture>, c: Capture)
    requires open != []
  {
    && LastTs(open, 0) <= c.ts
    && c.ts - LastTs(open, 0) <= BLE_MAX_DT
    && BLE_BATCH_HEADER + Size(open) + BLE_ENTRY_LEN + |c.bytes| <= BLE_BATCH_BUF
  }

  datatype Added = Added(open: seq<Capture>, closed: seq<Capture>)

  function Add(open: seq<Capture>, c: Capture): (r: Added) {
    if open != [] && !Joins(open, c) then Added([c], open)
    else if |open| + 1 == BLE_MAX_ENTRIES then Added([], open + [c])
    else Added(open + [c], [])
  }

  lemma JoinKeeps(open: seq<Capture>, c: Capture)
    requires WellFormed(open) && |open| < BLE_MAX_ENTRIES && Sound(c)
    requires open != [] ==> Joins(open, c)
    ensures WellFormed(open + [c])
  {
    SizeSnoc(open, c);
    if open != [] {
      ChainSnoc(open, c, open[0].ts);
    } else {
      assert open + [c] == [c];
    }
  }

  /** What one more entry does to a batch's bytes. */
  lemma JoinBytes(open: seq<Capture>, c: Capture)
    requires WellFormed(open) && |open| < BLE_MAX_ENTRIES && Sound(c)
    requires open != [] ==> Joins(open, c)
    ensures WellFormed(open + [c]) && Size(open + [c]) == Size(open) + BLE_ENTRY_LEN + |c.bytes|
    ensures open == [] ==> Entries([c], c.ts) == EntryBytes(c, c.ts)
    ensures open != [] ==>
      && |Entries(open, open[0].ts)| == Size(open)
      && Entries(open + [c], open[0].ts) == Entries(open, open[0].ts) + EntryBytes(c, LastTs(open, 0))
  {
    JoinKeeps(open, c);
    SizeSnoc(open, c);
    if open == [] {
      EntriesSnoc([], c, c.ts);
      assert [] + [c] == [c] && [] + EntryBytes(c, c.ts) == EntryBytes(c, c.ts);
    } else {
      EntriesSize(open, open[0].ts);
      EntriesSnoc(open, c, open[0].ts);
    }
  }

  /** Adding keeps the format's limits, and loses, repeats and reorders nothing. */
  lemma AddKeeps(open: seq<Capture>, c: Capture)
    requires WellFormed(open) && |open| < BLE_MAX_ENTRIES && Sound(c)
    ensures var r := Add(open, c);
      && WellFormed(r.open) && |r.open| < BLE_MAX_ENTRIES && WellFormed(r.closed)
      && r.closed + r.open == open + [c]
  {
    if open != [] && !Joins(open, c) {
      assert WellFormed([c]) by { assert [c][1..] == []; }
    } else {
      JoinKeeps(open, c);
      assert [] + (open + [c]) == open + [c] == (open + [c]) + [];
    }
  }

  // ---- and when it closes ----

  /** A batch the format can carry, from its limits alone: one to 32 packets, each cut to
      300 bytes if it was longer, no earlier than the last and within the sixteen bits of
      a delta, in a payload of at most 2048 bytes. */
  ghost predicate Carries(cs: seq<Capture>) {
    && 1 <= |cs| <= 32
    && (forall i :: 0 <= i < |cs| ==> CutTo300(cs[i]))
    && (forall i :: 0 <= i < |cs| - 1 ==> cs[i].ts <= cs[i + 1].ts <= cs[i].ts + 65535)
    && 9 + 7 * |cs| + PacketBytes(cs) <= 2048
  }

  predicate CutTo300(c: Capture) {
    if c.orig > 300 then |c.bytes| == 300 && c.flags == 1 else 1 <= |c.bytes| == c.orig && c.flags == 0
  }

  lemma {:induction false} ChainIs(cs: seq<Capture>, prev: uint64)
    ensures Chain(cs, prev) <==>
      && (forall i :: 0 <= i < |cs| ==> CutTo300(cs[i]))
      && (cs != [] ==> prev <= cs[0].ts <= prev + 65535)
      && (forall i :: 0 <= i < |cs| - 1 ==> cs[i].ts <= cs[i + 1].ts <= cs[i].ts + 65535)
    decreases |cs|
  {
    if cs != [] {
      var rest := cs[1..];
      ChainIs(rest, cs[0].ts);
      assert forall i :: 0 < i < |cs| ==> cs[i] == rest[i - 1];
      assert forall i :: 0 <= i < |rest| ==> rest[i] == cs[i + 1];
    }
  }

  lemma CarriesIs(cs: seq<Capture>)
    ensures Carries(cs) <==> cs != [] && WellFormed(cs)
  {
    SizeIsBytes(cs);
    if cs != [] {
      ChainIs(cs, cs[0].ts);
    }
  }

  lemma {:induction false} PacketBytesAppend(a: seq<Capture>, b: seq<Capture>)
    ensures PacketBytes(a + b) == PacketBytes(a) + PacketBytes(b)
    decreases |a|
  {
    if a == [] {
      assert a + b == b;
    } else {
      assert (a + b)[1..] == a[1..] + b;
      PacketBytesAppend(a[1..], b);
    }
  }

  lemma JoinsIs(open: seq<Capture>, c: Capture)
    requires open != [] && WellFormed(open) && |open| < 32 && CutTo300(c)
    ensures Joins(open, c) <==> Carries(open + [c])
  {
    var all := open + [c];
    SizeIsBytes(open);
    PacketBytesAppend(open, [c]);
    assert all[|open| - 1] == open[|open| - 1] && all[|open|] == c && all[0] == open[0];
    CarriesIs(all);
    if Joins(open, c) {
      JoinKeeps(open, c);
    }
  }

  /** A batch is closed for a packet exactly when the two could not go in one batch, and
      behind a packet exactly when it is the 32nd. */
  lemma ClosesExactly(open: seq<Capture>, c: Capture)
    requires (open == [] || Carries(open)) && |open| < 32 && CutTo300(c)
    ensures Add(open, c) ==
      if !Carries(open + [c]) then Added([c], open)
      else if |open| == 31 then Added([], open + [c])
      else Added(open + [c], [])
  {
    if open == [] {
      assert open + [c] == [c];
      assert Carries([c]) by { assert PacketBytes([c]) == |c.bytes| + PacketBytes([c][1..]); }
    } else {
      CarriesIs(open);
      JoinsIs(open, c);
    }
  }

  /** Where everything is in a PACKET, little-endian throughout. */
  lemma PacketLayout(c: Capture)
    requires Carries([c]) && WellFormed([c])
    ensures var s := Payload([c]).payload;
      s[..8] == ToLe(c.ts, 8) && s[8..10] == ToLe(c.orig, 2) && s[10] == c.flags && s[11] == 0 && s[12..] == c.bytes
  {
    assert Meta(c)[8..10] == ToLe(c.orig, 2);
  }

  /** In an entry; */
  lemma EntryLayout(c: Capture, prev: uint64)
    requires CutTo300(c) && prev <= c.ts <= prev + 65535
    ensures var s := EntryBytes(c, prev);
      && s[..2] == ToLe(c.ts - prev, 2) && s[2..4] == ToLe(c.orig, 2) && s[4] == c.flags
      && s[5..7] == ToLe(|c.bytes|, 2) && s[7..] == c.bytes
  {
    assert (c.ts - prev) % 0x1_0000 == c.ts - prev;
  }

  /** and in a batch: its entries one behind the other. */
  lemma BatchLayout(cs: seq<Capture>)
    requires |cs| >= 2 && Carries(cs) && WellFormed(cs)
    ensures var s := Payload(cs).payload;
      s[..8] == ToLe(cs[0].ts, 8) && s[8] == |cs| && s[9..] == Entries(cs, cs[0].ts)
  {
    var s := Payload(cs).payload;
    assert s[9..] == Entries(cs, cs[0].ts);
  }
}
