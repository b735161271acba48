/** What each frame and each packet does to the board, told from the bytes that come in and
    the bytes that go out. */
module SessionLaws {
  import opened Wire
  import opened Session
  import opened SessionProofs
  import B = Batch154
  import L = BatchBle
  import Follower
  import Radio154
  import ScanStart

  // ---- what goes out ----

  /** The last frame offered is the reply to command `id`. */
  predicate Answers(c: Codes, out: seq<Offered>, id: byte, status: Status, value: uint32) {
    && out != []
    && out[|out| - 1].kind == ControlReply
    && out[|out| - 1].payload == [id, c.status(status)] + ToLe(value, 4)
  }

  /** The 802.15.4 packets in the frames offered, as the host decodes them. */
  function Packets154(out: seq<Offered>): (ps: seq<B.Packet>) {
    if out == [] then []
    else
      var d := B.Decode(Offer(out[0].kind, out[0].payload));
      (if d.Some? then d.value else []) + Packets154(out[1..])
  }

  function PacketsBle(out: seq<Offered>): (cs: seq<L.Capture>) {
    if out == [] then []
    else
      var d := L.Decode(Offer(out[0].kind, out[0].payload));
      (if d.Some? then d.value else []) + PacketsBle(out[1..])
  }

  lemma Closes154(s: State, closed: seq<B.Packet>, ring: Ring)
    requires B.WellFormed(closed)
    ensures Packets154(Close154(s, closed, ring).out) == closed
  {
    if closed != [] {
      var out := Close154(s, closed, ring).out;
      B.RoundTrip(closed);
      assert out[1..] == [] && Packets154(out) == closed + Packets154(out[1..]);
    }
  }

  lemma ClosesBle(s: State, closed: seq<L.Capture>, ring: Ring)
    requires L.WellFormed(closed)
    ensures PacketsBle(CloseBle(s, closed, ring).out) == closed
  {
    if closed != [] {
      var out := CloseBle(s, closed, ring).out;
      L.RoundTrip(closed);
      assert out[1..] == [] && PacketsBle(out) == closed + PacketsBle(out[1..]);
    }
  }

  lemma ReplyHasNone(frames: seq<Offered>, reply: Offered)
    requires |frames| <= 1 && reply.kind == ControlReply
    ensures Packets154(frames + [reply]) == Packets154(frames)
  {
    assert Packets154([reply]) == [] + Packets154([reply][1..]);
    if frames == [] {
      assert frames + [reply] == [reply];
    } else {
      assert (frames + [reply])[1..] == [reply] && frames[1..] == [];
    }
  }

  /** The same board but for the link's counters. */
  ghost predicate OnlyReplied(s: State, r: State) {
    r == s.(link := r.link)
  }

  // ---- packets ----

  /** A packet heard while the receiver runs is counted, and is behind everything that was
      open: in the frame sent, if one was, or in the batch. It carries the channel tuned
      and the first 127 bytes. Otherwise nothing happens. */
  lemma HeardIsKept(c: Codes, s: State, ts: uint64, lqi: byte, rssi: int8, psdu: seq<byte>, ring: Ring)
    ensures var r := Step(c, s, Heard154(ts, lqi, rssi, psdu, ring));
      var p := B.Packet(s.r154.channel, ts, lqi, rssi, if |psdu| > 127 then psdu[..127] else psdu);
      if s.r154.running then
        && Packets154(r.out) + r.s.r154.open == s.r154.open + [p]
        && r.s.r154.captured == Add32(s.r154.captured, 1)
        && r.s.r154.running && r.s.r154.channel == s.r154.channel && r.s.cfg == s.cfg && r.s.ble == s.ble
      else r == Stepped(s, [])
  {
    if s.r154.running {
      var p := B.Packet(s.r154.channel, ts, lqi, rssi, B.Cut(psdu));
      B.AddKeeps(s.r154.open, p);
      var a := B.Add(s.r154.open, p);
      Closes154(Took154(s), a.closed, ring);
      CloseFrames154(Took154(s), a.closed, ring);
    }
  }

  /** What the forwarding thread lets into a capture while BLE runs: isochronous data, and
      events but for the two that answer commands. */
  predicate Captures(h4: byte, data: seq<byte>) {
    h4 == 0x05 || (h4 == 0x04 && |data| > 0 && data[0] != 0x0E && data[0] != 0x0F)
  }

  /** As forwarded: the H4 byte in front, 300 bytes at most, flagged when cut. */
  function AsForwarded(ts: uint64, h4: byte, data: seq<byte>): (p: L.Capture)
    requires |data| <= 65534
  {
    if |data| + 1 > 300 then L.Capture(ts, |data| + 1, 1, [h4] + data[..299]) else L.Capture(ts, |data| + 1, 0, [h4] + data)
  }

  lemma CapturedAs(ts: uint64, h4: byte, data: seq<byte>)
    requires |data| <= 65534
    ensures L.Captured(ts, h4, data) == AsForwarded(ts, h4, data)
  {
    L.CapturedIsSound(ts, h4, data);
  }

  /** Each of them is behind everything that was open; nothing else is. */
  lemma ForwardedIsKept(c: Codes, s: State, ts: uint64, h4: byte, data: seq<byte>, ring: Ring, r: Stepped)
    requires |data| <= 65534 && r == Step(c, s, HciPacket(ts, h4, data, ring))
    ensures if s.ble.running && Captures(h4, data)
      then PacketsBle(r.out) + r.s.ble.open == s.ble.open + [AsForwarded(ts, h4, data)]
      else r == Stepped(s, [])
  {
    if s.ble.running && Captures(h4, data) {
      var p := AsForwarded(ts, h4, data);
      CapturedAs(ts, h4, data);
      L.AddKeeps(s.ble.open, p);
      ClosesBle(Tally(s, h4, data), L.Add(s.ble.open, p).closed, ring);
    }
  }

  /** captured, and oversized for those cut; the other radio is left alone. */
  lemma ForwardedCounts(c: Codes, s: State, ts: uint64, h4: byte, data: seq<byte>, ring: Ring, r: Stepped)
    requires |data| <= 65534 && r == Step(c, s, HciPacket(ts, h4, data, ring))
    requires s.ble.running && Captures(h4, data)
    ensures r.s.ble.counts.captured == Add32(s.ble.counts.captured, 1)
    ensures r.s.ble.counts.oversized == if |data| >= 300 then Add32(s.ble.counts.oversized, 1) else s.ble.counts.oversized
    ensures r.s.r154 == s.r154 && r.s.cfg == s.cfg
  {
    var p := L.Captured(ts, h4, data);
    L.CapturedIsSound(ts, h4, data);
    L.AddKeeps(s.ble.open, p);
    var a := L.Add(s.ble.open, p);
    CloseFramesBle(Tally(s, h4, data), a.closed, ring);
    CloseCounts(Tally(s, h4, data), a.closed, ring);
  }

  lemma CloseCounts(s: State, closed: seq<L.Capture>, ring: Ring)
    requires L.WellFormed(closed)
    ensures var r := CloseBle(s, closed, ring).s.ble;
      && r.counts.captured == s.ble.counts.captured && r.counts.oversized == s.ble.counts.oversized
      && r.kinds == s.ble.kinds && r.seen == s.ble.seen
  {
  }

  /** An LE Meta event with subevent `sub`. */
  predicate LeEvent(h4: byte, data: seq<byte>, sub: byte) {
    h4 == 0x04 && |data| >= 3 && data[0] == 0x3E && data[2] == sub
  }

  /** What is counted besides: LE Advertising Report and LE Extended Advertising Report
      (sections 7.7.65.2 and 7.7.65.13 of Bluetooth Core Vol 4 Part E); both versions of the
      periodic report (7.7.65.15); both of Sync Established (7.7.65.14), as made or refused
      by its status; and, when trains are followed, an announcement of one. */
  lemma KindsCounted(c: Codes, s: State, ts: uint64, h4: byte, data: seq<byte>, ring: Ring)
    requires |data| <= 65534 && s.ble.running && Captures(h4, data)
    ensures var k := s.ble.kinds;
      var r := Step(c, s, HciPacket(ts, h4, data, ring)).s.ble;
      var made := LeEvent(h4, data, 0x0E) || LeEvent(h4, data, 0x24);
      var good := |data| >= 4 && data[3] == 0;
      && r.kinds.adv == (if LeEvent(h4, data, 0x02) || LeEvent(h4, data, 0x0D) then Add32(k.adv, 1) else k.adv)
      && r.kinds.reports == (if LeEvent(h4, data, 0x0F) || LeEvent(h4, data, 0x25) then Add32(k.reports, 1) else k.reports)
      && r.kinds.synced == (if made && good then Add32(k.synced, 1) else k.synced)
      && r.kinds.refused == (if made && !good then Add32(k.refused, 1) else k.refused)
      && r.seen == (if s.ble.periodic && h4 == 0x04 && Follower.Announces([h4] + data) then Add32(s.ble.seen, 1) else s.ble.seen)
  {
    var p := L.Captured(ts, h4, data);
    L.CapturedIsSound(ts, h4, data);
    L.AddKeeps(s.ble.open, p);
    CloseCounts(Tally(s, h4, data), L.Add(s.ble.open, p).closed, ring);
  }

  /** A checksum failure counts exactly while the receiver runs. */
  lemma BadFcsCounts(c: Codes, s: State)
    ensures Step(c, s, BadFcs) ==
      Stepped(if s.r154.running then s.(r154 := s.r154.(fcsFailed := Add32(s.r154.fcsFailed, 1))) else s, [])
  {
  }

  /** A timer sends what is open and leaves nothing open. */
  lemma LingerSends(c: Codes, s: State, ring: Ring, r: Stepped)
    requires r == Step(c, s, Linger154(ring))
    ensures Packets154(r.out) == s.r154.open && r.s.r154.open == []
  {
    Closes154(s, s.r154.open, ring);
  }

  lemma LingerSendsBle(c: Codes, s: State, ring: Ring, r: Stepped)
    requires r == Step(c, s, LingerBle(ring))
    ensures PacketsBle(r.out) == s.ble.open && r.s.ble.open == []
  {
    assert r == FlushBle(s, ring);
    ClosesBle(s, s.ble.open, ring);
  }

  // ---- commands ----

  /** The frame is the command `command` and carries `v`; `r` is what it leads to. */
  ghost predicate Told(c: Codes, s: State, payload: seq<byte>, command: Command, v: uint32, below: Below, r: Stepped) {
    && |payload| >= 5 && c.command(payload[0]) == command && v == FromLe(payload[1..5])
    && r == Handle(c, s, ControlCmd, payload, below)
  }

  lemma ValueIs(payload: seq<byte>)
    requires |payload| >= 5
    ensures Value(payload) == FromLe(payload[1..5]) && Value(payload) % 0x100 == payload[1]
  {
    FourBytes(payload[1..5]);
  }

  /** The reply comes last and is all that happens behind the command. */
  lemma Happens(c: Codes, s: State, payload: seq<byte>, command: Command, v: uint32, below: Below, r: Stepped)
    returns (d: Done)
    requires Told(c, s, payload, command, v, below, r)
    ensures d == Execute(c, s, command, v, below) && v % 0x100 == payload[1]
    ensures r.s == d.r.s.(link := r.s.link) && Answers(c, r.out, payload[0], d.status, d.value)
    ensures r.out == d.r.out + [Offered(ControlReply, ReplyBytes(c, payload[0], d), below.reply.takes)]
  {
    ValueIs(payload);
    d := Commanded(c, s, payload, below);
  }

  lemma FlushedPackets(s: State, below: Below, reply: Offered)
    requires reply.kind == ControlReply
    ensures Packets154(Flush154(s, below.batch).out + [reply]) == s.r154.open
  {
    Closes154(s, s.r154.open, below.batch);
    FlushSends(s, below);
    ReplyHasNone(Flush154(s, below.batch).out, reply);
  }

  /** SET_CHANNEL, with 802.15.4 selected. On a channel of the band that the driver takes,
      the receiver is on that channel and runs if it ran or its start succeeded, and the
      reply says which. Any other is a bad value and moves nothing. */
  lemma SetChannelTunes(c: Codes, s: State, payload: seq<byte>, v: uint32, below: Below, r: Stepped)
    requires Told(c, s, payload, SetChannel, v, below, r) && s.cfg.selected == R154
    ensures 11 <= payload[1] <= 26 && below.tune == 0 ==>
      && r.s.r154.channel == payload[1]
      && (r.s.r154.running <==> s.r154.running || below.start154 == 0)
      && Answers(c, r.out, payload[0], if below.start154 == 0 then Ok else Failed, v)
    ensures payload[1] < 11 || payload[1] > 26 || below.tune != 0 ==>
      && r.s.r154.channel == s.r154.channel && r.s.r154.running == s.r154.running
      && Answers(c, r.out, payload[0], BadValue, v)
  {
    var d := Happens(c, s, payload, SetChannel, v, below, r);
    CloseFrames154(s, s.r154.open, below.batch);
  }

  /** And what was heard on the last channel has gone before. */
  lemma SetChannelFlushes(c: Codes, s: State, payload: seq<byte>, v: uint32, below: Below, r: Stepped)
    requires Told(c, s, payload, SetChannel, v, below, r) && s.cfg.selected == R154
    ensures Packets154(r.out) == s.r154.open
    ensures r.s.r154.open == [] && r.s.ble == s.ble && r.s.cfg == s.cfg
  {
    var d := Happens(c, s, payload, SetChannel, v, below, r);
    RetunedIs(c, s, v, below);
    FlushedPackets(s, below, Offered(ControlReply, ReplyBytes(c, payload[0], d), below.reply.takes));
  }

  lemma RetunedIs(c: Codes, s: State, v: uint32, below: Below)
    requires s.cfg.selected == R154
    ensures var d := Execute(c, s, SetChannel, v, below);
      d.r.out == Flush154(s, below.batch).out && d.r.s.r154.open == [] && d.r.s.ble == s.ble && d.r.s.cfg == s.cfg
  {
    CloseFrames154(s, s.r154.open, below.batch);
  }

  /** So the first packet heard then is the batch, on that channel. */
  lemma TunedHears(c: Codes, s: State, payload: seq<byte>, v: uint32, below: Below, t: Stepped,
                   ts: uint64, lqi: byte, rssi: int8, psdu: seq<byte>, ring: Ring)
    requires Told(c, s, payload, SetChannel, v, below, t) && s.cfg.selected == R154
    requires 11 <= payload[1] <= 26 && below.tune == 0 && below.start154 == 0
    ensures var r := Step(c, t.s, Heard154(ts, lqi, rssi, psdu, ring));
      r.s.r154.open == [B.Packet(payload[1], ts, lqi, rssi, if |psdu| > 127 then psdu[..127] else psdu)]
  {
    SetChannelTunes(c, s, payload, v, below, t);
    SetChannelFlushes(c, s, payload, v, below, t);
    FirstHeard(t.s, B.Packet(payload[1], ts, lqi, rssi, B.Cut(psdu)), ring);
  }

  lemma FirstHeard(s: State, p: B.Packet, ring: Ring)
    requires s.r154.running && s.r154.open == [] && |p.psdu| <= B.MAX_PSDU
    ensures Heard(s, p, ring).s.r154.open == [p]
  {
    B.AddKeeps([], p);
    assert [] + [p] == [p];
  }

  /** With BLE selected SET_CHANNEL and ENERGY_DETECT are bad values and move nothing. */
  lemma WrongRadioRefuses(c: Codes, s: State, payload: seq<byte>, command: Command, v: uint32, below: Below, r: Stepped)
    requires Told(c, s, payload, command, v, below, r) && s.cfg.selected == RBle
    requires command == SetChannel || command == EnergyDetect
    ensures OnlyReplied(s, r.s) && Answers(c, r.out, payload[0], BadValue, v)
  {
    var d := Happens(c, s, payload, command, v, below, r);
  }

  /** SET_RADIO: 0 is 802.15.4 and 2 is BLE; anything else is a bad value and moves nothing. */
  lemma SetRadioSelects(c: Codes, s: State, payload: seq<byte>, v: uint32, below: Below, r: Stepped)
    requires Told(c, s, payload, SetRadio, v, below, r)
    ensures v == 0 || v == 2 ==>
      r.s.cfg == s.cfg.(selected := if v == 2 then RBle else R154) && Answers(c, r.out, payload[0], Ok, v)
    ensures v != 0 && v != 2 ==> OnlyReplied(s, r.s) && Answers(c, r.out, payload[0], BadValue, v)
  {
    var d := Happens(c, s, payload, SetRadio, v, below, r);
    StopBleStops(s, below);
    Stop154Stops(s, below);
  }

  /** The radio left is stopped, its batch gone; the one selected already is left as it is. */
  lemma SetRadioStops(c: Codes, s: State, payload: seq<byte>, v: uint32, below: Below, r: Stepped)
    requires Told(c, s, payload, SetRadio, v, below, r) && (v == 0 || v == 2)
    ensures r.s.cfg.selected == s.cfg.selected ==> OnlyReplied(s, r.s)
    ensures v == 0 && s.cfg.selected == RBle ==> r.s.r154 == s.r154
    ensures v == 0 && s.cfg.selected == RBle && s.ready ==> !r.s.ble.running && r.s.ble.keys == [] && r.s.ble.open == []
    ensures v == 2 && s.cfg.selected == R154 ==> r.s.r154.open == [] && r.s.ble == s.ble
    ensures v == 2 && s.cfg.selected == R154 && below.stop154 == 0 ==> !r.s.r154.running
  {
    var d := Happens(c, s, payload, SetRadio, v, below, r);
    StopBleStops(s, below);
    Stop154Stops(s, below);
  }

  /** SET_ANTENNA: 0 is the antenna on board and 1 the external one, and no other moves. */
  lemma SetAntennaSwitches(c: Codes, s: State, payload: seq<byte>, v: uint32, below: Below, r: Stepped)
    requires Told(c, s, payload, SetAntenna, v, below, r)
    ensures OnlyReplied(s.(onboard := r.s.onboard), r.s)
    ensures v <= 1 && below.antennaReady && below.antennaErr == 0 ==> (r.s.onboard <==> v == 0)
    ensures v > 1 || !below.antennaReady || below.antennaErr != 0 ==> r.s.onboard == s.onboard
  {
    var d := Happens(c, s, payload, SetAntenna, v, below, r);
  }

  /** Its reply: the regulator must be ready, and is asked only for a change. */
  lemma SetAntennaAnswers(c: Codes, s: State, payload: seq<byte>, v: uint32, below: Below, r: Stepped)
    requires Told(c, s, payload, SetAntenna, v, below, r)
    ensures Answers(c, r.out, payload[0],
                    if v > 1 then BadValue
                    else if !below.antennaReady then Failed
                    else if (v == 0) == s.onboard || below.antennaErr == 0 then Ok
                    else if below.antennaErr == -22 then BadValue
                    else Failed, v)
  {
    var d := Happens(c, s, payload, SetAntenna, v, below, r);
  }

  /** ENERGY_DETECT, with 802.15.4 selected: nothing of the session moves. The reply is the
      reading as a two's-complement byte, clamped to one; or a bad value for a channel
      outside the band or a window of nothing; or what the driver failed with. */
  lemma EnergyIsAnswered(c: Codes, s: State, payload: seq<byte>, v: uint32, below: Below, r: Stepped)
    requires Told(c, s, payload, EnergyDetect, v, below, r) && s.cfg.selected == R154
    ensures OnlyReplied(s, r.s)
    ensures payload[1] < 11 || payload[1] > 26 || v < 0x100 ==> Answers(c, r.out, payload[0], BadValue, v)
    ensures 11 <= payload[1] <= 26 && v >= 0x100 ==>
      var d := below.ed;
      if d.tune == 0 && d.start == 0 && d.scan == 0 && d.reading.Measured? && d.reading.value != 32767 then
        var dbm := d.reading.value;
        Answers(c, r.out, payload[0], Ok, if dbm < -128 then 128 else if dbm < 0 then dbm + 256 else if dbm > 127 then 127 else dbm)
      else
        Answers(c, r.out, payload[0], if FirstError(d) == -22 then BadValue else Failed, v)
  {
    var d := Happens(c, s, payload, EnergyDetect, v, below, r);
  }

  /** The first of the three calls to fail; then no reading in time, then a reading out of
      range. */
  function FirstError(d: Radio154.Driver): (err: int) {
    if d.tune != 0 then d.tune else if d.start != 0 then d.start else if d.scan != 0 then d.scan
    else if d.reading == Radio154.NoAnswer then -116 else -5
  }

  /** SET_BLE_PHYS: a byte of PHYs. */
  lemma PhysAreHeld(c: Codes, s: State, payload: seq<byte>, v: uint32, below: Below, r: Stepped)
    requires Told(c, s, payload, SetBlePhys, v, below, r)
    ensures v <= 255 ==> OnlyReplied(s.(cfg := s.cfg.(phys := v)), r.s) && Answers(c, r.out, payload[0], Ok, v)
    ensures v > 255 ==> OnlyReplied(s, r.s) && Answers(c, r.out, payload[0], BadValue, v)
  {
    var d := Happens(c, s, payload, SetBlePhys, v, below, r);
  }

  /** SET_BLE_PERIODIC: trains are followed for any value but 0. */
  lemma PeriodicIsHeld(c: Codes, s: State, payload: seq<byte>, v: uint32, below: Below, r: Stepped)
    requires Told(c, s, payload, SetBlePeriodic, v, below, r)
    ensures OnlyReplied(s.(ble := s.ble.(periodic := v != 0)), r.s) && Answers(c, r.out, payload[0], Ok, v)
  {
    var d := Happens(c, s, payload, SetBlePeriodic, v, below, r);
  }

  /** SET_BLE_SCAN: the interval in the first two bytes and the window in the others. */
  lemma TimingIsHeld(c: Codes, s: State, payload: seq<byte>, v: uint32, below: Below, r: Stepped,
                     interval: uint16, window: uint16)
    requires Told(c, s, payload, SetBleScan, v, below, r)
    requires payload[1..3] == ToLe(interval, 2) && payload[3..5] == ToLe(window, 2)
    ensures OnlyReplied(s.(cfg := Config(s.cfg.selected, s.cfg.phys, interval, window)), r.s)
    ensures Answers(c, r.out, payload[0], Ok, v)
  {
    HalvesOf(payload, v, interval, window);
    var d := Happens(c, s, payload, SetBleScan, v, below, r);
  }

  lemma HalvesOf(payload: seq<byte>, v: uint32, interval: uint16, window: uint16)
    requires |payload| >= 5 && payload[1..3] == ToLe(interval, 2) && payload[3..5] == ToLe(window, 2)
    requires v == FromLe(payload[1..5])
    ensures v % 0x1_0000 == interval && v / 0x1_0000 == window
  {
    BytesOf(payload, 1, interval);
    BytesOf(payload, 3, window);
    FourBytes(payload[1..5]);
    PutTogether(interval, window);
  }

  lemma BytesOf(payload: seq<byte>, i: nat, x: uint16)
    requires i + 2 <= |payload| && payload[i..i + 2] == ToLe(x, 2)
    ensures payload[i] == x % 256 && payload[i + 1] == x / 256
  {
    ToLe16(x);
    assert payload[i..i + 2][0] == payload[i] && payload[i..i + 2][1] == payload[i + 1];
  }

  lemma PutTogether(a: uint16, b: uint16)
    ensures Word(a % 256, a / 256, b % 256, b / 256) == a + 0x1_0000 * b
    ensures (a + 0x1_0000 * b) % 0x1_0000 == a && (a + 0x1_0000 * b) / 0x1_0000 == b
  {
  }

  /** START: the radio selected runs if it ran or its start succeeded, the other is left
      alone, and the reply says whether it succeeded. Without a BLE controller it fails. */
  lemma StartAnswers(c: Codes, s: State, payload: seq<byte>, v: uint32, below: Below, r: Stepped)
    requires Told(c, s, payload, Start, v, below, r)
    ensures var ok := if s.cfg.selected == RBle then s.ready && below.bleStart == 0 else below.start154 == 0;
      && Answers(c, r.out, payload[0], if ok then Ok else Failed, 0) && |r.out| == 1
      && (s.cfg.selected == RBle ==> r.s.r154 == s.r154 && (r.s.ble.running <==> s.ble.running || ok))
      && (s.cfg.selected == R154 ==> OnlyReplied(s.(r154 := s.r154.(running := s.r154.running || ok)), r.s))
  {
    var d := Happens(c, s, payload, Start, v, below, r);
  }

  /** STOP: the radio selected stops, a refusing 802.15.4 driver apart; its batch is gone;
      the other is left alone; and the reply says whether the driver or the controller was
      well. */
  lemma StopAnswers(c: Codes, s: State, payload: seq<byte>, v: uint32, below: Below, r: Stepped)
    requires Told(c, s, payload, Stop, v, below, r)
    ensures s.cfg.selected == R154 ==>
      && (r.s.r154.running <==> s.r154.running && below.stop154 != 0) && r.s.r154.open == [] && r.s.ble == s.ble
      && Answers(c, r.out, payload[0], if s.r154.running && below.stop154 != 0 then Failed else Ok, 0)
    ensures s.cfg.selected == RBle ==>
      && (s.ready ==> !r.s.ble.running && r.s.ble.keys == [] && r.s.ble.open == []) && r.s.r154 == s.r154
      && Answers(c, r.out, payload[0], if s.ready && below.bleReset != 0 then Failed else Ok, 0)
  {
    var d := Happens(c, s, payload, Stop, v, below, r);
    StopBleStops(s, below);
    Stop154Stops(s, below);
  }

  /** GET_INFO answers with the firmware's version. */
  lemma InfoAnswers(c: Codes, s: State, payload: seq<byte>, v: uint32, below: Below, r: Stepped)
    requires Told(c, s, payload, GetInfo, v, below, r)
    ensures Answers(c, r.out, payload[0], Ok, c.firmware)
  {
    var d := Happens(c, s, payload, GetInfo, v, below, r);
  }

  /** And starts over: 802.15.4 selected, 1M PHY, the controller's own timing, no trains
      followed, every count at 0, nothing open, and BLE, if its controller ever came up,
      stopped with its keys gone. */
  lemma InfoStartsOver(c: Codes, s: State, payload: seq<byte>, v: uint32, below: Below, r: Stepped)
    requires Told(c, s, payload, GetInfo, v, below, r)
    ensures r.s.cfg == Config(R154, 1, 0, 0)
    ensures r.s.r154 == S154(s.r154.running && below.stop154 != 0, s.r154.channel, 0, 0, [], 0)
    ensures var none := BatcherBle.Counters(0, 0, 0, 0);
      r.s.ble ==
        if s.ready then SBle(false, false, [], s.ble.filter, NotScanning, [], none, Kinds(0, 0, 0, 0), 0, 0)
        else s.ble.(periodic := false, counts := none, kinds := Kinds(0, 0, 0, 0), seen := 0, timeouts := 0)
    ensures below.antennaReady && below.antennaErr == 0 ==> r.s.onboard
  {
    var d := Happens(c, s, payload, GetInfo, v, below, r);
    Stop154Stops(s, below);
    StopBleStops(Stop154(s, below).r.s, below);
  }

  /** Answers that START or STOP of BLE waited for in vain are counted. */
  lemma TimeoutsAreCounted(c: Codes, s: State, payload: seq<byte>, command: Command, v: uint32, below: Below, r: Stepped)
    requires Told(c, s, payload, command, v, below, r) && (command == Start || command == Stop)
    requires s.cfg.selected == RBle && s.ready
    ensures r.s.ble.timeouts == Add32(s.ble.timeouts, below.timeouts)
  {
    var d := Happens(c, s, payload, command, v, below, r);
    if command == Stop {
      CloseKeepsTimeouts(Halted(s), s.ble.open, below.bleBatch);
    }
  }

  lemma CloseKeepsTimeouts(s: State, closed: seq<L.Capture>, ring: Ring)
    requires L.WellFormed(closed)
    ensures CloseBle(s, closed, ring).s.ble.timeouts == s.ble.timeouts
  {
  }

  /** A command nobody knows is said to be so and moves nothing. */
  lemma UnknownAnswers(c: Codes, s: State, payload: seq<byte>, v: uint32, below: Below, r: Stepped)
    requires Told(c, s, payload, Unknown, v, below, r)
    ensures OnlyReplied(s, r.s) && Answers(c, r.out, payload[0], UnknownCommand, 0)
  {
    var d := Happens(c, s, payload, Unknown, v, below, r);
  }

  /** A filter frame: its first eight whole entries of seven bytes. */
  lemma FilterIsTaken(c: Codes, s: State, payload: seq<byte>, below: Below)
    ensures var n := if |payload| >= 56 then 56 else |payload| - |payload| % 7;
      Handle(c, s, BleFilter, payload, below) == Stepped(s.(ble := s.ble.(filter := payload[..n])), [])
  {
  }

  /** A keys frame: whole, if it is at most eight entries of 23 bytes each led by a known
      address type, or not at all. */
  lemma KeysAreTaken(c: Codes, s: State, payload: seq<byte>, below: Below)
    ensures var whole := |payload| % 23 == 0 && |payload| <= 184
        && forall i :: 0 <= i < |payload| && i % 23 == 0 ==> payload[i] <= 1;
      Handle(c, s, BleKeys, payload, below) == Stepped(if whole then s.(ble := s.ble.(keys := payload)) else s, [])
  {
  }

  /** Nothing shorter than a command or of another type does anything. */
  lemma OthersAreIgnored(c: Codes, s: State, kind: FrameType, payload: seq<byte>, below: Below)
    requires kind != BleFilter && kind != BleKeys && (kind != ControlCmd || |payload| < 5)
    ensures Handle(c, s, kind, payload, below) == Stepped(s, [])
  {
  }

  // ---- the link's counters ----

  /** Of the frames offered, those the link took, and their bytes, ten of header each. */
  function TakenFrames(out: seq<Offered>): (n: nat)
    ensures n <= |out|
  {
    if out == [] then 0 else (if out[0].taken then 1 else 0) + TakenFrames(out[1..])
  }

  function TakenBytes(out: seq<Offered>): (n: nat) {
    if out == [] then 0 else (if out[0].taken then 10 + |out[0].payload| else 0) + TakenBytes(out[1..])
  }

  /** frames_sent, bytes_sent and frames_dropped go up by what was offered. */
  ghost predicate Counts(a: LinkCounts, out: seq<Offered>, b: LinkCounts) {
    && b.sent == Add32(a.sent, TakenFrames(out)) && b.bytes == Add32(a.bytes, TakenBytes(out))
    && b.dropped == Add32(a.dropped, |out| - TakenFrames(out)) && b.highWater >= a.highWater
  }

  lemma CountsNone(a: LinkCounts)
    ensures Counts(a, [], a)
  {
  }

  lemma CountsOne(a: LinkCounts, kind: FrameType, payload: seq<byte>, ring: Ring)
    ensures Counts(a, [Offered(kind, payload, ring.takes)], Count(a, |payload|, ring))
    ensures Count(a, |payload|, ring).highWater == if ring.takes && ring.queued > a.highWater then ring.queued else a.highWater
  {
    var out := [Offered(kind, payload, ring.takes)];
    assert out[1..] == [];
    assert TakenFrames(out) == (if ring.takes then 1 else 0) && TakenBytes(out) == if ring.takes then 10 + |payload| else 0;
  }

  lemma {:induction false} TakenThen(x: seq<Offered>, y: seq<Offered>)
    ensures TakenFrames(x + y) == TakenFrames(x) + TakenFrames(y) && TakenBytes(x + y) == TakenBytes(x) + TakenBytes(y)
    decreases |x|
  {
    if x == [] {
      assert x + y == y;
    } else {
      assert (x + y)[1..] == x[1..] + y;
      TakenThen(x[1..], y);
    }
  }

  lemma AddTwice(a: uint32, x: nat, y: nat)
    ensures Add32(Add32(a, x), y) == Add32(a, x + y)
  {
  }

  lemma CountsThen(a: LinkCounts, x: seq<Offered>, b: LinkCounts, y: seq<Offered>, c: LinkCounts)
    requires Counts(a, x, b) && Counts(b, y, c)
    ensures Counts(a, x + y, c)
  {
    TakenThen(x, y);
    AddTwice(a.sent, TakenFrames(x), TakenFrames(y));
    AddTwice(a.bytes, TakenBytes(x), TakenBytes(y));
    AddTwice(a.dropped, |x| - TakenFrames(x), |y| - TakenFrames(y));
  }

  lemma CloseCounts154(s: State, closed: seq<B.Packet>, ring: Ring)
    requires B.WellFormed(closed)
    ensures var r := Close154(s, closed, ring); Counts(s.link, r.out, r.s.link)
  {
    if closed == [] {
      CountsNone(s.link);
    } else {
      CountsOne(s.link, B.Payload(closed).kind, B.Payload(closed).payload, ring);
    }
  }

  lemma CloseCountsBle(s: State, closed: seq<L.Capture>, ring: Ring)
    requires L.WellFormed(closed)
    ensures var r := CloseBle(s, closed, ring); Counts(s.link, r.out, r.s.link)
  {
    if closed == [] {
      CountsNone(s.link);
    } else {
      CountsOne(s.link, L.Payload(closed).kind, L.Payload(closed).payload, ring);
    }
  }

  lemma StopCounts(s: State, radio: RadioKind, below: Below)
    ensures var t := StopRadio(s, radio, below); Counts(s.link, t.r.out, t.r.s.link)
  {
    if radio == RBle {
      CloseCountsBle(Halted(s), s.ble.open, below.bleBatch);
      CountsNone(s.link);
    } else {
      var err := if s.r154.running then below.stop154 else 0;
      CloseCounts154(s.(r154 := s.r154.(running := s.r154.running && err != 0)), s.r154.open, below.batch);
    }
  }

  lemma CommandCounts(c: Codes, s: State, command: Command, v: uint32, below: Below)
    requires command != GetInfo
    ensures var d := Execute(c, s, command, v, below); Counts(s.link, d.r.out, d.r.s.link)
  {
    CountsNone(s.link);
    match command
    case SetRadio => StopCounts(s, s.cfg.selected, below);
    case Stop => StopCounts(s, s.cfg.selected, below);
    case SetChannel => CloseCounts154(s, s.r154.open, below.batch);
    case _ =>
  }

  /** Every step but GET_INFO counts exactly the frames it offers. */
  lemma OffersAreCounted(c: Codes, s: State, e: Event, r: Stepped)
    requires Possible(e) && r == Step(c, s, e)
    requires e.HostFrame? && IsCommand(e.kind, e.payload) ==> c.command(e.payload[0]) != GetInfo
    ensures Counts(s.link, r.out, r.s.link)
  {
    CountsNone(s.link);
    match e
    case HostFrame(kind, payload, below) =>
      if IsCommand(kind, payload) {
        CommandAndReply(c, s, payload, below, r);
      }
    case Heard154(ts, lqi, rssi, psdu, ring) =>
      var p := B.Packet(s.r154.channel, ts, lqi, rssi, B.Cut(psdu));
      B.AddKeeps(s.r154.open, p);
      CloseCounts154(Took154(s), B.Add(s.r154.open, p).closed, ring);
    case BadFcs =>
    case Linger154(ring) => CloseCounts154(s, s.r154.open, ring);
    case HciPacket(ts, h4, data, ring) => HciCounts(s, ts, h4, data, ring);
    case LingerBle(ring) => CloseCountsBle(s, s.ble.open, ring);
  }

  lemma HciCounts(s: State, ts: uint64, h4: byte, data: seq<byte>, ring: Ring)
    requires |data| <= 65534
    ensures var r := Forward(s, ts, h4, data, ring); Counts(s.link, r.out, r.s.link)
  {
    CountsNone(s.link);
    if Forwarded(s, h4, data) {
      var p := L.Captured(ts, h4, data);
      L.CapturedIsSound(ts, h4, data);
      L.AddKeeps(s.ble.open, p);
      CloseCountsBle(Tally(s, h4, data), L.Add(s.ble.open, p).closed, ring);
    }
  }

  lemma CommandAndReply(c: Codes, s: State, payload: seq<byte>, below: Below, r: Stepped)
    requires |payload| >= 5 && c.command(payload[0]) != GetInfo && r == Handle(c, s, ControlCmd, payload, below)
    ensures Counts(s.link, r.out, r.s.link)
  {
    var command, v := c.command(payload[0]), Value(payload);
    var d := Execute(c, s, command, v, below);
    CommandCounts(c, s, command, v, below);
    var reply := ReplyBytes(c, payload[0], d);
    CountsOne(d.r.s.link, ControlReply, reply, below.reply);
    CountsThen(s.link, d.r.out, d.r.s.link, [Offered(ControlReply, reply, below.reply.takes)], r.s.link);
  }

  /** And GET_INFO starts them over: its own reply is the first frame counted. */
  lemma InfoCountsOver(c: Codes, s: State, payload: seq<byte>, v: uint32, below: Below, r: Stepped)
    requires Told(c, s, payload, GetInfo, v, below, r)
    ensures r.out != [] && Counts(LinkCounts(0, 0, 0, 0), [r.out[|r.out| - 1]], r.s.link)
  {
    var d := Happens(c, s, payload, GetInfo, v, below, r);
    CountsOne(LinkCounts(0, 0, 0, 0), ControlReply, ReplyBytes(c, payload[0], d), below.reply);
  }
}
