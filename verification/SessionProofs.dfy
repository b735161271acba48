/** What holds of the board over every history of host frames, packets and timers. */
module SessionProofs {
  import opened Wire
  import opened Session
  import B = Batch154
  import L = BatchBle
  import ScanStart

  // ---- one radio ----

  ghost predicate OneRadio(s: State) {
    && (s.ble.running ==> s.cfg.selected == RBle && s.ready)
    && (!s.ble.running ==> |s.ble.open| == 0 && s.ble.scan == NotScanning)
  }

  lemma CloseFrames154(s: State, closed: seq<B.Packet>, ring: Ring)
    requires B.WellFormed(closed)
    ensures var r := Close154(s, closed, ring).s;
      && r.cfg == s.cfg && r.ble == s.ble && r.ready == s.ready && r.onboard == s.onboard && r.base == s.base
      && r.r154 == s.r154.(dropped := r.r154.dropped)
  {
  }

  lemma CloseFramesBle(s: State, closed: seq<L.Capture>, ring: Ring)
    requires L.WellFormed(closed)
    ensures var r := CloseBle(s, closed, ring).s;
      && r.cfg == s.cfg && r.r154 == s.r154 && r.ready == s.ready && r.onboard == s.onboard && r.base == s.base
      && r.ble == s.ble.(counts := r.ble.counts)
  {
  }

  lemma StopBleStops(s: State, below: Below)
    ensures var r := StopBle(s, below).r.s;
      && r.cfg == s.cfg && r.r154 == s.r154 && r.ready == s.ready && r.onboard == s.onboard
      && (s.ready ==> !r.ble.running && r.ble.scan == NotScanning && r.ble.keys == [] && r.ble.open == [])
      && (!s.ready ==> r == s)
      && r.ble.periodic == s.ble.periodic && r.ble.filter == s.ble.filter
  {
    CloseFramesBle(Halted(s), s.ble.open, below.bleBatch);
  }

  lemma Stop154Stops(s: State, below: Below)
    ensures var t := Stop154(s, below); var r := t.r.s;
      && r.cfg == s.cfg && r.ble == s.ble && r.ready == s.ready && r.onboard == s.onboard
      && r.r154.open == [] && r.r154.channel == s.r154.channel
      && (r.r154.running <==> s.r154.running && below.stop154 != 0)
      && (t.err != 0 <==> r.r154.running)
  {
    var err := if s.r154.running then below.stop154 else 0;
    CloseFrames154(s.(r154 := s.r154.(running := s.r154.running && err != 0)), s.r154.open, below.batch);
  }

  lemma FreshStops(s: State, below: Below)
    requires OneRadio(s)
    ensures var r := Fresh(s, below).s;
      && r.cfg == DEFAULTS && !r.ble.running && r.ble.scan == NotScanning && r.ble.open == [] && r.ready == s.ready
      && (r.r154.running <==> s.r154.running && below.stop154 != 0)
  {
    Stop154Stops(s, below);
    StopBleStops(Stop154(s, below).r.s, below);
  }

  ghost predicate Selected154(s: State) {
    s.r154.running ==> s.cfg.selected == R154
  }

  /** The commands that send a batch. */
  predicate Moves(command: Command) {
    command.SetRadio? || command.SetChannel? || command.Stop? || command.GetInfo?
  }

  ghost predicate Keeps(s: State, r: State, below: Below) {
    && OneRadio(r) && r.ready == s.ready
    && (Selected154(s) && below.stop154 == 0 ==> Selected154(r))
  }

  lemma SetRadioKeeps(c: Codes, s: State, value: uint32, below: Below)
    requires OneRadio(s)
    ensures Keeps(s, Execute(c, s, SetRadio, value, below).r.s, below)
  {
    StopBleStops(s, below);
    Stop154Stops(s, below);
  }

  lemma SetChannelKeeps(c: Codes, s: State, value: uint32, below: Below)
    requires OneRadio(s)
    ensures Keeps(s, Execute(c, s, SetChannel, value, below).r.s, below)
  {
    CloseFrames154(s, s.r154.open, below.batch);
  }

  lemma StopKeeps(c: Codes, s: State, value: uint32, below: Below)
    requires OneRadio(s)
    ensures Keeps(s, Execute(c, s, Stop, value, below).r.s, below)
  {
    StopBleStops(s, below);
    Stop154Stops(s, below);
  }

  lemma ExecuteKeeps(c: Codes, s: State, command: Command, value: uint32, below: Below)
    requires OneRadio(s)
    ensures Keeps(s, Execute(c, s, command, value, below).r.s, below)
  {
    match command
    case SetRadio => SetRadioKeeps(c, s, value, below);
    case SetChannel => SetChannelKeeps(c, s, value, below);
    case Stop => StopKeeps(c, s, value, below);
    case GetInfo => FreshStops(s, below);
    case _ =>
  }

  /** A packet or a timer changes no setting and starts no radio. */
  lemma PacketKeeps(c: Codes, s: State, e: Event)
    requires OneRadio(s) && Possible(e) && !e.HostFrame?
    ensures var r := Step(c, s, e).s;
      && OneRadio(r) && r.ready == s.ready && r.cfg == s.cfg
      && r.r154.running == s.r154.running && r.ble.running == s.ble.running && r.ble.scan == s.ble.scan
  {
    match e
    case Heard154(ts, lqi, rssi, psdu, ring) =>
      var p := B.Packet(s.r154.channel, ts, lqi, rssi, B.Cut(psdu));
      B.AddKeeps(s.r154.open, p);
      CloseFrames154(Took154(s), B.Add(s.r154.open, p).closed, ring);
    case BadFcs =>
    case Linger154(ring) => CloseFrames154(s, s.r154.open, ring);
    case HciPacket(ts, h4, data, ring) =>
      if Forwarded(s, h4, data) {
        var p := L.Captured(ts, h4, data);
        L.CapturedIsSound(ts, h4, data);
        L.AddKeeps(s.ble.open, p);
        CloseFramesBle(Tally(s, h4, data), L.Add(s.ble.open, p).closed, ring);
      }
    case LingerBle(ring) => CloseFramesBle(s, s.ble.open, ring);
  }

  lemma StepKeeps(c: Codes, s: State, e: Event)
    requires OneRadio(s) && Possible(e)
    ensures var r := Step(c, s, e).s;
      && OneRadio(r) && r.ready == s.ready
      && (Selected154(s) && (e.HostFrame? ==> e.below.stop154 == 0) ==> Selected154(r))
  {
    if e.HostFrame? {
      if IsCommand(e.kind, e.payload) {
        ExecuteKeeps(c, s, c.command(e.payload[0]), Value(e.payload), e.below);
      }
    } else {
      PacketKeeps(c, s, e);
    }
  }

  /** The 802.15.4 driver never refuses to stop. */
  ghost predicate StopsWork(es: seq<Event>) {
    forall e :: e in es && e.HostFrame? ==> e.below.stop154 == 0
  }

  lemma HistoryStep(h: History, n: nat)
    requires n < |h.es| && OneRadio(h.ss[n])
    ensures OneRadio(h.ss[n + 1]) && h.ss[n + 1].ready == h.ss[n].ready
    ensures Selected154(h.ss[n]) && StopsWork(h.es) ==> Selected154(h.ss[n + 1])
  {
    StepKeeps(h.c, h.ss[n], h.es[n]);
  }

  lemma {:induction false} HistoryKeeps(h: History, n: nat)
    requires OneRadio(h.ss[0]) && n <= |h.es|
    ensures OneRadio(h.ss[n]) && h.ss[n].ready == h.ss[0].ready
    ensures Selected154(h.ss[0]) && StopsWork(h.es) ==> Selected154(h.ss[n])
    decreases n
  {
    if n > 0 {
      HistoryKeeps(h, n - 1);
      HistoryStep(h, n - 1);
    }
  }

  lemma ReachableOneRadio(c: Codes, s: State)
    requires Reachable(c, s)
    ensures OneRadio(s)
  {
    var h: History :| h.c == c && FromBoot(h) && s == h.ss[|h.es|];
    HistoryKeeps(h, |h.es|);
  }

  /** Over every history: BLE runs only while it is the radio selected. */
  lemma BleRunsOnlySelected(c: Codes, s: State)
    requires Reachable(c, s)
    ensures s.ble.running ==> s.cfg.selected == RBle
  {
    ReachableOneRadio(c, s);
  }

  /** One radio at a time: with a driver that always stops, the two never run together
      and each runs only while selected, whatever an energy measurement in between did. */
  lemma OneRadioRuns(h: History)
    requires FromBoot(h) && StopsWork(h.es)
    ensures var s := h.ss[|h.es|];
      && (s.r154.running ==> s.cfg.selected == R154)
      && (s.ble.running ==> s.cfg.selected == RBle)
      && !(s.r154.running && s.ble.running)
  {
    HistoryKeeps(h, |h.es|);
  }

  /** The exact edge of that: selecting BLE leaves 802.15.4 running just when it ran and
      its driver refused to stop; the command answers OK either way. */
  lemma SelectingBleStops154(c: Codes, s: State, below: Below)
    requires s.cfg.selected == R154
    ensures var d := Execute(c, s, SetRadio, RADIO_BLE, below);
      && d.r.s.cfg.selected == RBle && d.status == Ok
      && (d.r.s.r154.running <==> s.r154.running && below.stop154 != 0)
  {
    Stop154Stops(s, below);
  }

  // ---- one reply ----

  function Replies(out: seq<Offered>): (n: nat) {
    if out == [] then 0 else (if out[0].kind == ControlReply then 1 else 0) + Replies(out[1..])
  }

  lemma {:induction false} RepliesAppend(a: seq<Offered>, b: seq<Offered>)
    ensures Replies(a + b) == Replies(a) + Replies(b)
    decreases |a|
  {
    if a == [] {
      assert a + b == b;
    } else {
      assert (a + b)[1..] == a[1..] + b;
      RepliesAppend(a[1..], b);
    }
  }

  /** What a flush sends: the open batch, if there is one. */
  lemma FlushSends(s: State, below: Below)
    ensures Replies(Flush154(s, below.batch).out) == 0 && Replies(FlushBle(s, below.bleBatch).out) == 0
    ensures |Flush154(s, below.batch).out| == if s.r154.open == [] then 0 else 1
    ensures s.r154.open != [] ==>
      var o := B.Payload(s.r154.open);
      Flush154(s, below.batch).out == [Offered(o.kind, o.payload, below.batch.takes)]
    ensures s.ble.open != [] ==>
      var o := L.Payload(s.ble.open);
      FlushBle(s, below.bleBatch).out == [Offered(o.kind, o.payload, below.bleBatch.takes)]
  {
    if s.r154.open != [] {
      B.PayloadBounds(s.r154.open);
    }
    if s.ble.open != [] {
      L.PayloadBounds(s.ble.open);
    }
  }

  lemma StopsReplyNothing(s: State, below: Below)
    ensures Replies(Stop154(s, below).r.out) == 0 && Replies(StopBle(s, below).r.out) == 0
  {
    var err := if s.r154.running then below.stop154 else 0;
    FlushSends(s.(r154 := s.r154.(running := s.r154.running && err != 0)), below);
    FlushSends(Halted(s), below);
  }

  lemma FreshRepliesNothing(s: State, below: Below)
    ensures Replies(Fresh(s, below).out) == 0
  {
    var a := Stop154(s, below).r;
    StopsReplyNothing(s, below);
    StopsReplyNothing(a.s, below);
    RepliesAppend(a.out, StopBle(a.s, below).r.out);
  }

  lemma ExecuteRepliesNothing(c: Codes, s: State, command: Command, value: uint32, below: Below)
    ensures Replies(Execute(c, s, command, value, below).r.out) == 0
  {
    match command
    case SetRadio => StopsReplyNothing(s, below);
    case SetChannel => FlushSends(s, below);
    case Stop => StopsReplyNothing(s, below);
    case GetInfo => FreshRepliesNothing(s, below);
    case _ =>
  }

  /** Every command of five bytes or more is answered exactly once, last, with its own id
      in front; nothing else is answered at all. */
  lemma OneReply(c: Codes, s: State, kind: FrameType, payload: seq<byte>, below: Below)
    ensures var out := Handle(c, s, kind, payload, below).out;
      if IsCommand(kind, payload)
      then Replies(out) == 1 && out != []
           && out[|out| - 1].kind == ControlReply
           && |out[|out| - 1].payload| == 6 && out[|out| - 1].payload[0] == payload[0]
      else out == []
  {
    if IsCommand(kind, payload) {
      var d := Commanded(c, s, payload, below);
      ExecuteRepliesNothing(c, s, c.command(payload[0]), Value(payload), below);
      var last := Offered(ControlReply, ReplyBytes(c, payload[0], d), below.reply.takes);
      RepliesAppend(d.r.out, [last]);
      assert [last][1..] == [];
    }
  }

  lemma Stop154Sends(s: State, below: Below)
    requires s.r154.open != []
    ensures var o := B.Payload(s.r154.open);
      Stop154(s, below).r.out == [Offered(o.kind, o.payload, below.batch.takes)]
  {
    var err := if s.r154.running then below.stop154 else 0;
    FlushSends(s.(r154 := s.r154.(running := s.r154.running && err != 0)), below);
  }

  lemma ReplyFollows(c: Codes, s: State, payload: seq<byte>, below: Below)
    requires |payload| >= 5
    ensures var d := Commanded(c, s, payload, below);
      Handle(c, s, ControlCmd, payload, below).out == d.r.out + [Offered(ControlReply, ReplyBytes(c, payload[0], d), below.reply.takes)]
  {
  }

  /** A STOP of 802.15.4 sends the open batch before its reply. */
  lemma StopSendsBatchFirst(c: Codes, s: State, payload: seq<byte>, below: Below)
    requires |payload| >= 5 && c.command(payload[0]) == Stop
    requires s.cfg.selected == R154 && s.r154.open != []
    ensures var out := Handle(c, s, ControlCmd, payload, below).out;
      && |out| == 2
      && out[0].kind == B.Payload(s.r154.open).kind && out[0].payload == B.Payload(s.r154.open).payload
      && out[1].kind == ControlReply && out[1].payload[0] == payload[0]
      && out[1].payload[1] == c.status(if s.r154.running && below.stop154 != 0 then Failed else Ok)
  {
    Stop154Sends(s, below);
    ReplyFollows(c, s, payload, below);
  }

  /** And so does a STOP of BLE. */
  lemma StopSendsBleBatchFirst(c: Codes, s: State, payload: seq<byte>, below: Below)
    requires |payload| >= 5 && c.command(payload[0]) == Stop
    requires s.cfg.selected == RBle && s.ready && s.ble.open != []
    ensures var out := Handle(c, s, ControlCmd, payload, below).out;
      && |out| == 2
      && out[0].kind == L.Payload(s.ble.open).kind && out[0].payload == L.Payload(s.ble.open).payload
      && out[1].kind == ControlReply && out[1].payload[0] == payload[0]
      && out[1].payload[1] == c.status(if below.bleReset != 0 then Failed else Ok)
  {
    FlushSends(Halted(s), below);
    ReplyFollows(c, s, payload, below);
  }

  // ---- what the two ends mean by the bytes ----

  lemma FourBytes(s: seq<byte>)
    requires |s| == 4
    ensures FromLe(s) == Word(s[0], s[1], s[2], s[3])
  {
    var t := s[1..];
    var u := t[1..];
    assert u[1..] == [s[3]] && [s[3]][1..] == [];
    assert FromLe([s[3]]) == s[3];
    assert FromLe(u) == s[2] + 256 * FromLe([s[3]]);
    assert FromLe(t) == s[1] + 256 * FromLe(u);
  }

  /** A command as the host packs it, "<BI", carries its value here. */
  lemma CommandArrives(id: byte, value: uint32)
    ensures Value([id] + ToLe(value, 4)) == value
  {
    Le32RoundTrip(value);
    FourBytes(ToLe(value, 4));
  }

  /** A reply unpacks at the host, as "<BBI", to the command, the status and the value. */
  lemma ReplyUnpacks(c: Codes, id: byte, d: Done)
    ensures var p := ReplyBytes(c, id, d);
      p[0] == id && p[1] == c.status(d.status) && FromLe(p[2..6]) == d.value
  {
    var p := ReplyBytes(c, id, d);
    assert p[2..6] == ToLe(d.value, 4);
    Le32RoundTrip(d.value);
  }

  /** The host's packing of the scan timing: interval low, window high. */
  function PackTiming(intervalMs: int, windowMs: int): (v: uint32)
    requires 0 <= intervalMs < 0x1_0000 && 0 <= windowMs < 0x1_0000
    ensures v % 0x1_0000 == intervalMs && v / 0x1_0000 == windowMs
  {
    intervalMs + 0x1_0000 * windowMs
  }

  /** The timing a host sends is stored, and only it changes. */
  lemma TimingIsStored(c: Codes, s: State, id: byte, intervalMs: uint16, windowMs: uint16, below: Below)
    requires c.command(id) == SetBleScan
    ensures var r := Handle(c, s, ControlCmd, [id] + ToLe(PackTiming(intervalMs, windowMs), 4), below).s;
      r.cfg == s.cfg.(intervalMs := intervalMs, windowMs := windowMs) && r.ble == s.ble && r.ready == s.ready
  {
    var value := PackTiming(intervalMs, windowMs);
    CommandArrives(id, value);
    assert Commanded(c, s, [id] + ToLe(value, 4), below) == Execute(c, s, SetBleScan, value, below);
  }

  lemma PhysAreStored(c: Codes, s: State, id: byte, phys: byte, below: Below)
    requires c.command(id) == SetBlePhys
    ensures var r := Handle(c, s, ControlCmd, [id] + ToLe(phys, 4), below).s;
      r.cfg == s.cfg.(phys := phys) && r.ble == s.ble && r.ready == s.ready
  {
    CommandArrives(id, phys);
    assert Commanded(c, s, [id] + ToLe(phys, 4), below) == Execute(c, s, SetBlePhys, phys, below);
  }

  /** What the host sends is what START hands to the radio: the keys of its BLE_KEYS frame,
      as much of its BLE_FILTER frame as fits, the timing and the PHYs. */
  lemma SettingsReachStart(c: Codes, s: State, keys: seq<byte>, filter: seq<byte>, timingId: byte, physId: byte,
                           start: seq<byte>, intervalMs: uint16, windowMs: uint16, phys: byte, below: Below)
    requires ScanStart.KeysWellFormed(keys)
    requires c.command(timingId) == SetBleScan && c.command(physId) == SetBlePhys
    requires |start| >= 5 && c.command(start[0]) == Start
    requires s.cfg.selected == RBle && s.ready && below.bleStart == 0
    ensures var s1 := Handle(c, s, BleKeys, keys, below).s;
      var s2 := Handle(c, s1, BleFilter, filter, below).s;
      var s3 := Handle(c, s2, ControlCmd, [timingId] + ToLe(PackTiming(intervalMs, windowMs), 4), below).s;
      var s4 := Handle(c, s3, ControlCmd, [physId] + ToLe(phys, 4), below).s;
      var s5 := Handle(c, s4, ControlCmd, start, below).s;
      s5.ble.running && s5.ble.scan == Scanning(intervalMs, windowMs, phys, keys, Kept(filter))
  {
    var s2 := Handle(c, Handle(c, s, BleKeys, keys, below).s, BleFilter, filter, below).s;
    var s3 := Handle(c, s2, ControlCmd, [timingId] + ToLe(PackTiming(intervalMs, windowMs), 4), below).s;
    TimingIsStored(c, s2, timingId, intervalMs, windowMs, below);
    PhysAreStored(c, s3, physId, phys, below);
  }

  // ---- a fresh session ----

  /** The same board, the history kept for the proofs apart. */
  ghost predicate SameBoard(s: State, t: State) {
    s == t.(hist := s.hist, base := s.base)
  }

  /** The same but for the two things GET_INFO leaves alone. */
  ghost predicate SameSession(s: State, t: State) {
    SameBoard(s, t.(r154 := t.r154.(channel := s.r154.channel), ble := t.ble.(filter := s.ble.filter)))
  }

  /** GET_INFO makes of any board what it was at boot, the accept list and the channel
      apart, exactly when the 802.15.4 receiver stops, the antenna can be put back, and
      either BLE came up or no keys are held. */
  lemma FreshExactly(s: State, below: Below)
    requires OneRadio(s)
    ensures SameSession(Fresh(s, below).s, Boot(s.ready)) <==>
      && (s.r154.running ==> below.stop154 == 0)
      && (s.onboard || (below.antennaReady && below.antennaErr == 0))
      && (s.ready || s.ble.keys == [])
  {
    var a := Stop154(s, below).r;
    Stop154Stops(s, below);
    StopBleStops(a.s, below);
  }

  /** Two boards with any two histories behind them. */
  lemma FreshSession(c: Codes, s1: State, s2: State, below1: Below, below2: Below)
    requires Reachable(c, s1) && Reachable(c, s2) && s1.ready && s2.ready
    requires below1.stop154 == 0 == below2.stop154
    requires below1.antennaReady && below1.antennaErr == 0 && below2.antennaReady && below2.antennaErr == 0
    ensures SameSession(Fresh(s1, below1).s, Fresh(s2, below2).s)
    ensures SameSession(Fresh(s1, below1).s, Boot(true))
  {
    ReachableOneRadio(c, s1);
    ReachableOneRadio(c, s2);
    FreshExactly(s1, below1);
    FreshExactly(s2, below2);
  }

  /** The accept list and the tuned channel do carry over, whatever the comment on GET_INFO
      says of every setting. */
  lemma FilterAndChannelStay(s: State, below: Below)
    ensures Fresh(s, below).s.ble.filter == s.ble.filter
    ensures Fresh(s, below).s.r154.channel == s.r154.channel
  {
    Stop154Stops(s, below);
    StopBleStops(Stop154(s, below).r.s, below);
  }

  /** And it shows: a START without a SET_CHANNEL tags what it hears with the channel of
      the session before. */
  lemma OldChannelShows(c: Codes, channel: byte, p: B.Packet, ring: Ring, below: Below)
    requires below.start154 == 0 && |p.psdu| <= B.MAX_PSDU
    ensures var s := Boot(true).(r154 := Boot(true).r154.(channel := channel));
      var t := Execute(c, s, Start, 0, below).r.s;
      t.r154.running && Heard(t, p.(channel := t.r154.channel), ring).s.r154.open == [p.(channel := channel)]
  {
    var q := p.(channel := channel);
    B.AddKeeps([], q);
    assert [] + [q] == [q];
  }

}
