/** The 802.15.4 batcher's wire format: what a batch encodes to, and the decoder the
    host needs to get every packet back. */
module Batch154 {
  import opened Wire

  const MAX_ENTRIES := 32
  const MAX_PSDU := 127
  const MAX_DT := 0xFFFF
  const BATCH_HEADER := 10      // u64 base, u8 channel, u8 count
  const ENTRY_LEN := 5          // u16 dt, u8 lqi, i8 rssi, u8 len
  const META_LEN := 12
  const MAX_BATCH_BYTES := 2048

  datatype Packet = Packet(channel: byte, ts: uint64, lqi: byte, rssi: int8, psdu: seq<byte>)

  /** The (uint8_t) and (int8_t) casts of the signed RSSI. */
  function ToU8(v: int8): (b: byte) { if v < 0 then v + 256 else v }
  function ToI8(b: byte): (v: int8) { if b >= 128 then b - 256 else b }

  function EntryBytes(p: Packet, prev: uint64): (s: seq<byte>)
    requires |p.psdu| <= MAX_PSDU
    ensures |s| == ENTRY_LEN + |p.psdu|
  {
    ToLe((p.ts - prev) % 0x1_0000, 2) + [p.lqi, ToU8(p.rssi), |p.psdu|] + p.psdu
  }

  /** Each packet can follow the one before it in a batch on channel `channel`. */
  predicate Chain(ps: seq<Packet>, prev: uint64, channel: byte)
    decreases |ps|
  {
    ps != [] ==>
      && ps[0].channel == channel && |ps[0].psdu| <= MAX_PSDU
      && prev <= ps[0].ts <= prev + MAX_DT
      && Chain(ps[1..], ps[0].ts, channel)
  }

  function Entries(ps: seq<Packet>, prev: uint64, channel: byte): (s: seq<byte>)
    requires Chain(ps, prev, channel)
    decreases |ps|
  {
    if ps == [] then [] else EntryBytes(ps[0], prev) + Entries(ps[1..], ps[0].ts, channel)
  }

  function Size(ps: seq<Packet>): (n: nat) {
    if ps == [] then 0 else ENTRY_LEN + |ps[0].psdu| + Size(ps[1..])
  }

  /** What the batcher keeps true of an open batch: one channel, deltas that fit in
      sixteen bits, at most 32 entries and 2048 bytes. */
  predicate WellFormed(open: seq<Packet>) {
    && |open| <= MAX_ENTRIES
    && BATCH_HEADER + Size(open) <= MAX_BATCH_BYTES
    && (open != [] ==> Chain(open, open[0].ts, open[0].channel))
  }

  /** The frame a closing batch is sent as: a batch of one goes as a PACKET. */
  function Payload(open: seq<Packet>): (o: Offer)
    requires open != [] && WellFormed(open)
  {
    if |open| == 1 then Offer(OnePacket, Meta(open[0]) + open[0].psdu)
    else Offer(PacketBatch,
      ToLe(open[0].ts, 8) + [open[0].channel, |open|] + Entries(open, open[0].ts, open[0].channel))
  }

  function Meta(p: Packet): (s: seq<byte>)
    ensures |s| == META_LEN
  {
    [p.channel, p.lqi, ToU8(p.rssi), 0] + ToLe(p.ts, 8)
  }

  // ---- the host's side, read off the encoder ----

  function DecodePacket(s: seq<byte>): (r: Option<seq<Packet>>) {
    if |s| < META_LEN then None
    else
      var ts := FromLe(s[4..12]);
      if ts >= 0x1_0000_0000_0000_0000 then None
      else Some([Packet(s[0], ts, s[1], ToI8(s[2]), s[META_LEN..])])
  }

  /** `n` entries and nothing behind them. */
  function DecodeEntries(s: seq<byte>, n: nat, prev: uint64, channel: byte): (r: Option<seq<Packet>>)
    decreases n
  {
    if n == 0 then (if s == [] then Some([]) else None)
    else if |s| < ENTRY_LEN || |s| < ENTRY_LEN + s[4] then None
    else
      var ts := prev + Le16(s[0], s[1]);
      if ts >= 0x1_0000_0000_0000_0000 then None
      else
        var p := Packet(channel, ts, s[2], ToI8(s[3]), s[ENTRY_LEN..ENTRY_LEN + s[4]]);
        match DecodeEntries(s[ENTRY_LEN + s[4]..], n - 1, ts, channel)
        case None => None
        case Some(ps) => Some([p] + ps)
  }

  function DecodeBatch(s: seq<byte>): (r: Option<seq<Packet>>) {
    if |s| < BATCH_HEADER then None
    else
      var base := FromLe(s[0..8]);
      if base >= 0x1_0000_0000_0000_0000 then None
      else DecodeEntries(s[BATCH_HEADER..], s[9], base, s[8])
  }

  function Decode(o: Offer): (r: Option<seq<Packet>>) {
    match o.kind
    case OnePacket => DecodePacket(o.payload)
    case PacketBatch => DecodeBatch(o.payload)
    case _ => None
  }

  lemma {:induction false} EntriesSize(ps: seq<Packet>, prev: uint64, channel: byte)
    requires Chain(ps, prev, channel)
    ensures |Entries(ps, prev, channel)| == Size(ps)
    decreases |ps|
  {
    if ps != [] {
      EntriesSize(ps[1..], ps[0].ts, channel);
    }
  }

  lemma EntryFields(p: Packet, prev: uint64, rest: seq<byte>)
    requires |p.psdu| <= MAX_PSDU && prev <= p.ts <= prev + MAX_DT
    ensures var s := EntryBytes(p, prev) + rest;
      && prev + Le16(s[0], s[1]) == p.ts
      && s[2] == p.lqi && ToI8(s[3]) == p.rssi && s[4] == |p.psdu|
      && s[ENTRY_LEN..ENTRY_LEN + s[4]] == p.psdu
      && s[ENTRY_LEN + s[4]..] == rest
  {
    var dt := (p.ts - prev) % 0x1_0000;
    var s := EntryBytes(p, prev) + rest;
    assert s[0] == ToLe(dt, 2)[0] && s[1] == ToLe(dt, 2)[1];
    ToLe16(dt);
  }

  lemma DecodeFirst(s: seq<byte>, p: Packet, prev: uint64, channel: byte, rest: seq<byte>, n: nat, ps: seq<Packet>)
    requires p.channel == channel && |p.psdu| <= MAX_PSDU && prev <= p.ts <= prev + MAX_DT
    requires s == EntryBytes(p, prev) + rest && DecodeEntries(rest, n, p.ts, channel) == Some(ps)
    ensures DecodeEntries(s, n + 1, prev, channel) == Some([p] + ps)
  {
    EntryFields(p, prev, rest);
  }

  lemma {:induction false} DecodeEntriesInverts(s: seq<byte>, ps: seq<Packet>, prev: uint64, channel: byte)
    requires Chain(ps, prev, channel) && s == Entries(ps, prev, channel)
    ensures DecodeEntries(s, |ps|, prev, channel) == Some(ps)
    decreases |ps|
  {
    if ps != [] {
      var p, rest, more := ps[0], Entries(ps[1..], ps[0].ts, channel), ps[1..];
      DecodeEntriesInverts(rest, more, p.ts, channel);
      DecodeFirst(s, p, prev, channel, rest, |more|, more);
      assert ps == [p] + more;
    }
  }

  lemma DecodePacketInverts(p: Packet)
    ensures DecodePacket(Meta(p) + p.psdu) == Some([p])
  {
    var s := Meta(p) + p.psdu;
    assert s[4..12] == ToLe(p.ts, 8);
    assert s[META_LEN..] == p.psdu;
    Le64RoundTrip(p.ts);
  }

  lemma BatchFields(base: uint64, channel: byte, n: byte, entries: seq<byte>)
    ensures var s := ToLe(base, 8) + [channel, n] + entries;
      FromLe(s[0..8]) == base && s[8] == channel && s[9] == n && s[BATCH_HEADER..] == entries
  {
    var s := ToLe(base, 8) + [channel, n] + entries;
    assert s[0..8] == ToLe(base, 8);
    Le64RoundTrip(base);
  }

  /** Every frame the batcher sends decodes to exactly the packets that were in it:
      channel, LQI, RSSI, PSDU and the full 64-bit timestamp. */
  lemma RoundTrip(open: seq<Packet>)
    requires open != [] && WellFormed(open)
    ensures Decode(Payload(open)) == Some(open)
  {
    if |open| == 1 {
      DecodePacketInverts(open[0]);
      assert [open[0]] == open;
    } else {
      var base, channel := open[0].ts, open[0].channel;
      BatchFields(base, channel, |open|, Entries(open, base, channel));
      DecodeEntriesInverts(Entries(open, base, channel), open, base, channel);
    }
  }

  /** A frame's payload stays within 2048 bytes, so sn_link_send never refuses it for
      its length; and a frame of n packets costs at most what n PACKET frames would:
      ten bytes of frame header and twelve of metadata each. */
  lemma PayloadBounds(open: seq<Packet>)
    requires open != [] && WellFormed(open)
    ensures |Payload(open).payload| <= MAX_BATCH_BYTES
    ensures HEADER_LEN + |Payload(open).payload| <= 22 * |open| + PsduBytes(open)
    ensures Payload(open).kind == PacketBatch <==> 2 <= |open|
  {
    SizeIsBytes(open);
    if |open| > 1 {
      EntriesSize(open, open[0].ts, open[0].channel);
    } else {
      assert PsduBytes(open) == |open[0].psdu| + PsduBytes(open[1..]);
    }
  }

  function PsduBytes(ps: seq<Packet>): (n: nat) {
    if ps == [] then 0 else |ps[0].psdu| + PsduBytes(ps[1..])
  }

  lemma {:induction false} PsduAppend(a: seq<Packet>, b: seq<Packet>)
    ensures PsduBytes(a + b) == PsduBytes(a) + PsduBytes(b)
    decreases |a|
  {
    if a == [] {
      assert a + b == b;
    } else {
      assert (a + b)[1..] == a[1..] + b;
      PsduAppend(a[1..], b);
    }
  }

  lemma {:induction false} SizeIsBytes(ps: seq<Packet>)
    ensures Size(ps) == ENTRY_LEN * |ps| + PsduBytes(ps)
  {
    if ps != [] {
      SizeIsBytes(ps[1..]);
    }
  }

  // ---- how a batch grows ----

  lemma {:induction false} SizeSnoc(ps: seq<Packet>, p: Packet)
    ensures Size(ps + [p]) == Size(ps) + ENTRY_LEN + |p.psdu|
    decreases |ps|
  {
    if ps == [] {
      assert ps + [p] == [p] && [p][1..] == [];
    } else {
      assert (ps + [p])[1..] == ps[1..] + [p];
      SizeSnoc(ps[1..], p);
    }
  }

  function LastTs(ps: seq<Packet>, prev: uint64): (t: uint64) {
    if ps == [] then prev else ps[|ps| - 1].ts
  }

  lemma {:induction false} EntriesSnoc(ps: seq<Packet>, p: Packet, prev: uint64, channel: byte)
    requires Chain(ps, prev, channel)
    requires p.channel == channel && |p.psdu| <= MAX_PSDU
    requires LastTs(ps, prev) <= p.ts <= LastTs(ps, prev) + MAX_DT
    ensures Chain(ps + [p], prev, channel)
    ensures Entries(ps + [p], prev, channel) == Entries(ps, prev, channel) + EntryBytes(p, LastTs(ps, prev))
    decreases |ps|
  {
    if ps == [] {
      assert ps + [p] == [p] && [p][1..] == [];
      assert Entries([p], prev, channel) == EntryBytes(p, prev) + [];
    } else {
      assert (ps + [p])[1..] == ps[1..] + [p];
      EntriesSnoc(ps[1..], p, ps[0].ts, channel);
    }
  }

  /** sn_batch_add's own limit on a PSDU. */
  function Cut(psdu: seq<byte>): (r: seq<byte>)
    ensures |r| <= MAX_PSDU && r <= psdu
    ensures |psdu| <= MAX_PSDU ==> r == psdu
    ensures |psdu| > MAX_PSDU ==> |r| == MAX_PSDU
  {
    if |psdu| > MAX_PSDU then psdu[..MAX_PSDU] else psdu
  }

  /** Whether a packet may join the open batch: the four tests of sn_batch_add. */
  predicate Joins(open: seq<Packet>, p: Packet)
    requires open != []
  {
    && p.channel == open[0].channel
    && LastTs(open, 0) <= p.ts
    && p.ts - LastTs(open, 0) <= MAX_DT
    && BATCH_HEADER + Size(open) + ENTRY_LEN + |p.psdu| <= MAX_BATCH_BYTES
  }

  /** The open batch after an add, and the batch the add closed (none is []). */
  datatype Added = Added(open: seq<Packet>, closed: seq<Packet>)

  function Add(open: seq<Packet>, p: Packet): (r: Added) {
    if open != [] && !Joins(open, p) then Added([p], open)
    else if |open| + 1 == MAX_ENTRIES then Added([], open + [p])
    else Added(open + [p], [])
  }

  lemma JoinKeeps(open: seq<Packet>, p: Packet)
    requires WellFormed(open) && |open| < MAX_ENTRIES && |p.psdu| <= MAX_PSDU
    requires open != [] ==> Joins(open, p)
    ensures WellFormed(open + [p])
  {
    SizeSnoc(open, p);
    if open != [] {
      EntriesSnoc(open, p, open[0].ts, open[0].channel);
    } else {
      assert open + [p] == [p];
    }
  }

  /** Adding keeps the format's limits on whatever is left open and on whatever is
      sent, and no packet is lost, repeated or reordered on the way. */
  lemma AddKeeps(open: seq<Packet>, p: Packet)
    requires WellFormed(open) && |open| < MAX_ENTRIES && |p.psdu| <= MAX_PSDU
    ensures var r := Add(open, p);
      && WellFormed(r.open) && |r.open| < MAX_ENTRIES && WellFormed(r.closed)
      && r.closed + r.open == open + [p]
  {
    if open != [] && !Joins(open, p) {
      assert WellFormed([p]) by { assert [p][1..] == []; }
    } else {
      JoinKeeps(open, p);
      assert [] + (open + [p]) == open + [p] == (open + [p]) + [];
    }
  }

  // ---- and when it closes ----

  /** A batch the format can carry, from its limits alone: one to 32 packets on one
      channel, each no earlier than the last and within the sixteen bits of a delta, in a
      payload of at most 2048 bytes. */
  ghost predicate Carries(ps: seq<Packet>) {
    && 1 <= |ps| <= 32
    && (forall i :: 0 <= i < |ps| ==> ps[i].channel == ps[0].channel && |ps[i].psdu| <= 127)
    && (forall i :: 0 <= i < |ps| - 1 ==> ps[i].ts <= ps[i + 1].ts <= ps[i].ts + 65535)
    && 10 + 5 * |ps| + PsduBytes(ps) <= 2048
  }

  lemma {:induction false} ChainIs(ps: seq<Packet>, prev: uint64, channel: byte)
    ensures Chain(ps, prev, channel) <==>
      && (forall i :: 0 <= i < |ps| ==> ps[i].channel == channel && |ps[i].psdu| <= 127)
      && (ps != [] ==> prev <= ps[0].ts <= prev + 65535)
      && (forall i :: 0 <= i < |ps| - 1 ==> ps[i].ts <= ps[i + 1].ts <= ps[i].ts + 65535)
    decreases |ps|
  {
    if ps != [] {
      var rest := ps[1..];
      ChainIs(rest, ps[0].ts, channel);
      assert forall i :: 0 < i < |ps| ==> ps[i] == rest[i - 1];
      assert forall i :: 0 <= i < |rest| ==> rest[i] == ps[i + 1];
    }
  }

  lemma CarriesIs(ps: seq<Packet>)
    ensures Carries(ps) <==> ps != [] && WellFormed(ps)
  {
    SizeIsBytes(ps);
    if ps != [] {
      ChainIs(ps, ps[0].ts, ps[0].channel);
    }
  }

  lemma JoinsIs(open: seq<Packet>, p: Packet)
    requires open != [] && WellFormed(open) && |open| < 32 && |p.psdu| <= 127
    ensures Joins(open, p) <==> Carries(open + [p])
  {
    var all := open + [p];
    SizeIsBytes(open);
    PsduAppend(open, [p]);
    assert all[|open| - 1] == open[|open| - 1] && all[|open|] == p && all[0] == open[0];
    CarriesIs(all);
    if Joins(open, p) {
      JoinKeeps(open, p);
    }
  }

  /** A batch is closed for a packet exactly when the two could not go in one batch, and
      behind a packet exactly when it is the 32nd. */
  lemma ClosesExactly(open: seq<Packet>, p: Packet)
    requires (open == [] || Carries(open)) && |open| < 32 && |p.psdu| <= 127
    ensures Add(open, p) ==
      if !Carries(open + [p]) then Added([p], open)
      else if |open| == 31 then Added([], open + [p])
      else Added(open + [p], [])
  {
    if open == [] {
      assert open + [p] == [p];
      assert Carries([p]) by { assert PsduBytes([p]) == |p.psdu| + PsduBytes([p][1..]); }
    } else {
      CarriesIs(open);
      JoinsIs(open, p);
    }
  }

  /** A signed byte as the format has it. */
  function TwosComplement(v: int8): (b: byte) {
    (v + 256) % 256
  }

  /** Where everything is in a PACKET, little-endian throughout. */
  lemma PacketLayout(p: Packet)
    requires Carries([p]) && WellFormed([p])
    ensures var s := Payload([p]).payload;
      && s[..4] == [p.channel, p.lqi, TwosComplement(p.rssi), 0]
      && s[4..12] == ToLe(p.ts, 8) && s[12..] == p.psdu
  {
    assert Meta(p)[4..12] == ToLe(p.ts, 8);
  }

  /** In an entry; */
  lemma EntryLayout(p: Packet, prev: uint64)
    requires |p.psdu| <= 127 && prev <= p.ts <= prev + 65535
    ensures var s := EntryBytes(p, prev);
      && s[..2] == ToLe(p.ts - prev, 2) && s[2..5] == [p.lqi, TwosComplement(p.rssi), |p.psdu|] && s[5..] == p.psdu
  {
    assert (p.ts - prev) % 0x1_0000 == p.ts - prev;
  }

  /** and in a batch: its entries one behind the other. */
  lemma BatchLayout(ps: seq<Packet>)
    requires |ps| >= 2 && Carries(ps) && WellFormed(ps)
    ensures var s := Payload(ps).payload;
      && s[..8] == ToLe(ps[0].ts, 8) && s[8] == ps[0].channel && s[9] == |ps|
      && s[10..] == Entries(ps, ps[0].ts, ps[0].channel)
  {
    var s := Payload(ps).payload;
    assert s[10..] == Entries(ps, ps[0].ts, ps[0].channel);
  }
}
