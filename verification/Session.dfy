/** control.c over both radios: what each frame from the host does to the whole board's
    settings, radios, batches and counters, and what it sends back.

    A frame from the host, a packet from a radio and a timer expiry are each one step.
    What the drivers, the controller and the link answer is in the event. */
module Session {
  import opened Wire
  import B = Batch154
  import L = BatchBle
  import Batcher154
  import BatcherBle
  import Follower
  import Radio154
  import ScanStart

  datatype RadioKind = R154 | RBle
  datatype Status = Ok | BadValue | Failed | UnknownCommand

  datatype Command =
    | SetRadio | SetBlePhys | SetBlePeriodic | SetBleScan | SetChannel
    | Start | Stop | GetInfo | SetAntenna | EnergyDetect | Unknown

  /** The numbers of commands.h, which another repository holds. */
  datatype Codes = Codes(command: byte -> Command, status: Status -> byte, firmware: uint32)

  const RADIO_154 := 0
  const RADIO_BLE := 2
  const EINVAL := 22

  type Open154 = ps: seq<B.Packet> | B.WellFormed(ps) && |ps| < B.MAX_ENTRIES witness []
  type OpenBle = cs: seq<L.Capture> | L.WellFormed(cs) && |cs| < L.BLE_MAX_ENTRIES witness []

  datatype Config = Config(selected: RadioKind, phys: byte, intervalMs: uint16, windowMs: uint16)

  datatype S154 = S154(running: bool, channel: byte, captured: uint32, fcsFailed: uint32, open: Open154, dropped: uint32)

  /** What note_counts has counted. */
  datatype Kinds = Kinds(adv: uint32, reports: uint32, synced: uint32, refused: uint32)

  /** What the scan in progress was started with, as sn_radio_ble_start got it. */
  datatype Scanning =
    | NotScanning
    | Scanning(intervalMs: uint16, windowMs: uint16, phys: byte, keys: seq<byte>, filter: seq<byte>)

  datatype SBle = SBle(
    running: bool, periodic: bool, keys: seq<byte>, filter: seq<byte>, scan: Scanning, open: OpenBle,
    counts: BatcherBle.Counters, kinds: Kinds, seen: uint32, timeouts: uint32)

  datatype LinkCounts = LinkCounts(sent: uint32, bytes: uint32, dropped: uint32, highWater: nat)

  /** Packets the link took, the bytes of the frames that carried them, and the data bytes
      in those. */
  datatype Shipped = Shipped(packets: nat, framed: nat, data: nat)

  /** One radio's totals since boot, which nothing clears and no counter wraps. */
  datatype Account = Account(heard: nat, taken: Shipped, lost: nat)

  /** And what the BLE events were. */
  datatype KindTotals = KindTotals(adv: nat, reports: nat, synced: nat, refused: nat)

  datatype Totals = Totals(r154: Account, ble: Account, kinds: KindTotals)

  /** A frame of `bytes` with `data` of `n` packets, taken or refused. */
  function Settled(a: Account, n: nat, bytes: nat, data: nat, taken: bool): (r: Account) {
    if taken then a.(taken := Shipped(a.taken.packets + n, a.taken.framed + bytes, a.taken.data + data))
    else a.(lost := a.lost + n)
  }

  datatype State = State(
    ready: bool,           // the BLE controller came up at boot
    cfg: Config, r154: S154, ble: SBle, onboard: bool, link: LinkCounts,
    hist: Totals,          // never cleared
    base: Totals)          // hist as it was at the last GET_INFO

  /** A frame offered to the link. */
  datatype Offered = Offered(kind: FrameType, payload: seq<byte>, taken: bool)

  datatype Stepped = Stepped(s: State, out: seq<Offered>)

  /** The link's answer to one frame, and its ring's occupancy after taking it. */
  datatype Ring = Ring(takes: bool, queued: nat)

  /** Everything below control.c that a command may consult. Zero is success. */
  datatype Below = Below(
    batch: Ring, bleBatch: Ring, reply: Ring,
    stop154: int, start154: int, tune: int, ed: Radio154.Driver,
    bleStart: int, bleReset: int, timeouts: nat,
    antennaReady: bool, antennaErr: int)

  datatype Event =
    | HostFrame(kind: FrameType, payload: seq<byte>, below: Below)
    | Heard154(ts: uint64, lqi: byte, rssi: int8, psdu: seq<byte>, ring: Ring)
    | BadFcs
    | Linger154(ring: Ring)
    | HciPacket(ts: uint64, h4: byte, data: seq<byte>, ring: Ring)
    | LingerBle(ring: Ring)

  const DEFAULTS := Config(R154, 1, 0, 0)

  function NoLink(): (c: LinkCounts) {
    LinkCounts(0, 0, 0, 0)
  }

  function NoCounts(): (c: BatcherBle.Counters) {
    BatcherBle.Counters(0, 0, 0, 0)
  }

  function NoKinds(): (k: Kinds) {
    Kinds(0, 0, 0, 0)
  }

  function NoTotals(): (t: Totals) {
    var none := Account(0, Shipped(0, 0, 0), 0);
    Totals(none, none, KindTotals(0, 0, 0, 0))
  }

  function Boot(ready: bool): (s: State) {
    State(ready, DEFAULTS, S154(false, 11, 0, 0, [], 0),
          SBle(false, false, [], [], NotScanning, [], NoCounts(), NoKinds(), 0, 0), true,
          NoLink(), NoTotals(), NoTotals())
  }

  // ---- the link ----

  function Count(c: LinkCounts, len: nat, ring: Ring): (r: LinkCounts) {
    if ring.takes then
      LinkCounts(Add32(c.sent, 1), Add32(c.bytes, HEADER_LEN + len), c.dropped,
                 if ring.queued > c.highWater then ring.queued else c.highWater)
    else c.(dropped := Add32(c.dropped, 1))
  }

  function Send(s: State, kind: FrameType, payload: seq<byte>, ring: Ring): (r: Stepped) {
    Stepped(s.(link := Count(s.link, |payload|, ring)), [Offered(kind, payload, ring.takes)])
  }

  // ---- the batches ----

  /** Sends a batch that closed (none is []). */
  function Close154(s: State, closed: seq<B.Packet>, ring: Ring): (r: Stepped)
    requires B.WellFormed(closed)
  {
    if closed == [] then Stepped(s, [])
    else
      var o := B.Payload(closed);
      var sent := Send(s, o.kind, o.payload, ring);
      sent.(s := sent.s.(
        r154 := s.r154.(dropped := Batcher154.Dropped(s.r154.dropped, closed, ring.takes)),
        hist := s.hist.(r154 := Settled(s.hist.r154, |closed|, HEADER_LEN + |o.payload|, B.PsduBytes(closed), ring.takes))))
  }

  function Flush154(s: State, ring: Ring): (r: Stepped) {
    var c := Close154(s, s.r154.open, ring);
    c.(s := c.s.(r154 := c.s.r154.(open := [])))
  }

  function CloseBle(s: State, closed: seq<L.Capture>, ring: Ring): (r: Stepped)
    requires L.WellFormed(closed)
  {
    if closed == [] then Stepped(s, [])
    else
      var o := L.Payload(closed);
      var sent := Send(s, o.kind, o.payload, ring);
      sent.(s := sent.s.(
        ble := s.ble.(counts := BatcherBle.Counted(s.ble.counts, closed, ring.takes)),
        hist := s.hist.(ble := Settled(s.hist.ble, |closed|, HEADER_LEN + |o.payload|, L.PacketBytes(closed), ring.takes))))
  }

  function FlushBle(s: State, ring: Ring): (r: Stepped) {
    var c := CloseBle(s, s.ble.open, ring);
    c.(s := c.s.(ble := c.s.ble.(open := [])))
  }

  // ---- packets ----

  /** captured++ */
  function Took154(s: State): (r: State) {
    s.(r154 := s.r154.(captured := Add32(s.r154.captured, 1)),
       hist := s.hist.(r154 := s.hist.r154.(heard := s.hist.r154.heard + 1)))
  }

  function Heard(s: State, p: B.Packet, ring: Ring): (r: Stepped)
    requires |p.psdu| <= B.MAX_PSDU
  {
    if !s.r154.running then Stepped(s, [])
    else
      var a := B.Add(s.r154.open, p);
      B.AddKeeps(s.r154.open, p);
      var c := Close154(Took154(s), a.closed, ring);
      c.(s := c.s.(r154 := c.s.r154.(open := a.open)))
  }

  /** What note_counts takes an event for. */
  datatype Class = Advertising | PeriodicReport | SyncMade | SyncRefused | Uncounted

  function Classify(evt: seq<byte>): (c: Class) {
    if |evt| < 3 || evt[0] != 0x3E then Uncounted
    else if evt[2] == 0x02 || evt[2] == 0x0D then Advertising
    else if evt[2] == 0x0F || evt[2] == 0x25 then PeriodicReport
    else if evt[2] == 0x0E || evt[2] == 0x24 then
      (if |evt| >= 4 && evt[3] == 0 then SyncMade else SyncRefused)
    else Uncounted
  }

  function CountKind(k: Kinds, c: Class): (r: Kinds) {
    match c
    case Advertising => k.(adv := Add32(k.adv, 1))
    case PeriodicReport => k.(reports := Add32(k.reports, 1))
    case SyncMade => k.(synced := Add32(k.synced, 1))
    case SyncRefused => k.(refused := Add32(k.refused, 1))
    case Uncounted => k
  }

  function AddKind(k: KindTotals, c: Class): (r: KindTotals) {
    match c
    case Advertising => k.(adv := k.adv + 1)
    case PeriodicReport => k.(reports := k.reports + 1)
    case SyncMade => k.(synced := k.synced + 1)
    case SyncRefused => k.(refused := k.refused + 1)
    case Uncounted => k
  }

  function ClassOf(h4: byte, data: seq<byte>): (c: Class) {
    if h4 == L.H4_EVENT then Classify(data) else Uncounted
  }

  /** forward()'s counting, its batch apart. */
  function Tally(s: State, h4: byte, data: seq<byte>): (r: State) {
    var noticed := s.ble.periodic && h4 == L.H4_EVENT && Follower.Announces([h4] + data);
    s.(ble := s.ble.(counts := BatcherBle.Taken(s.ble.counts, data),
                     kinds := CountKind(s.ble.kinds, ClassOf(h4, data)),
                     seen := if noticed then Add32(s.ble.seen, 1) else s.ble.seen),
       hist := s.hist.(ble := s.hist.ble.(heard := s.hist.ble.heard + 1),
                       kinds := AddKind(s.hist.kinds, ClassOf(h4, data))))
  }

  /** What the forwarding thread lets into a capture. */
  predicate Forwarded(s: State, h4: byte, data: seq<byte>) {
    s.ble.running &&
    (h4 == L.H4_ISO || (h4 == L.H4_EVENT && |data| > 0 && data[0] != 0x0E && data[0] != 0x0F))
  }

  function Forward(s: State, ts: uint64, h4: byte, data: seq<byte>, ring: Ring): (r: Stepped)
    requires |data| <= 65534
  {
    if !Forwarded(s, h4, data) then Stepped(s, [])
    else
      var p := L.Captured(ts, h4, data);
      L.CapturedIsSound(ts, h4, data);
      var a := L.Add(s.ble.open, p);
      L.AddKeeps(s.ble.open, p);
      var c := CloseBle(Tally(s, h4, data), a.closed, ring);
      c.(s := c.s.(ble := c.s.ble.(open := a.open)))
  }

  // ---- commands ----

  /** A step that also says whether it worked. */
  datatype Tried = Tried(r: Stepped, err: int)

  function Then(a: Stepped, b: Stepped): (r: Stepped) {
    Stepped(b.s, a.out + b.out)
  }

  function Stop154(s: State, below: Below): (t: Tried) {
    var err := if s.r154.running then below.stop154 else 0;
    var s' := s.(r154 := s.r154.(running := s.r154.running && err != 0));
    Tried(Flush154(s', below.batch), err)
  }

  /** The running flag, the keys and the batch go whatever the reset's answer. */
  function StopBle(s: State, below: Below): (t: Tried) {
    if !s.ready then Tried(Stepped(s, []), 0)
    else
      var f := FlushBle(Halted(s), below.bleBatch);
      Tried(f.(s := AddTimeouts(f.s, below.timeouts)), below.bleReset)
  }

  function Halted(s: State): (r: State) {
    s.(ble := s.ble.(running := false, scan := NotScanning, keys := []))
  }

  function AddTimeouts(s: State, n: nat): (r: State) {
    s.(ble := s.ble.(timeouts := Add32(s.ble.timeouts, n)))
  }

  function StopRadio(s: State, radio: RadioKind, below: Below): (t: Tried) {
    if radio == RBle then StopBle(s, below) else Stop154(s, below)
  }

  /** 0, or the errno set_antenna gives. */
  function Antenna(s: State, value: uint32, below: Below): (t: Tried) {
    if value > 1 then Tried(Stepped(s, []), -EINVAL)
    else if !below.antennaReady then Tried(Stepped(s, []), -19)
    else if (value == 0) == s.onboard then Tried(Stepped(s, []), 0)
    else Tried(Stepped(if below.antennaErr == 0 then s.(onboard := value == 0) else s, []), below.antennaErr)
  }

  function StartBle(s: State, below: Below): (t: Tried) {
    if !s.ready then Tried(Stepped(s, []), -19)
    else
      var s' := AddTimeouts(s, below.timeouts);
      var scan := Scanning(s.cfg.intervalMs, s.cfg.windowMs, s.cfg.phys, s.ble.keys, s.ble.filter);
      Tried(Stepped(if below.bleStart == 0 then s'.(ble := s'.ble.(running := true, scan := scan)) else s', []),
            below.bleStart)
  }

  function Start154(s: State, below: Below): (t: Tried) {
    Tried(Stepped(if below.start154 == 0 then s.(r154 := s.r154.(running := true)) else s, []), below.start154)
  }

  function Tune(s: State, channel: byte, below: Below): (t: Tried) {
    if channel < 11 || channel > 26 then Tried(Stepped(s, []), -EINVAL)
    else Tried(Stepped(if below.tune == 0 then s.(r154 := s.r154.(channel := channel)) else s, []), below.tune)
  }

  /** GET_INFO up to its reply: nothing running, every counter zero, settings back. */
  function Fresh(s: State, below: Below): (r: Stepped) {
    var a := Stop154(s, below).r;
    var b := StopBle(a.s, below).r;
    Stepped(Antenna(Cleared(b.s), 0, below).r.s, a.out + b.out)
  }

  function Cleared(s: State): (r: State) {
    s.(cfg := DEFAULTS, link := NoLink(), base := s.hist,
       r154 := s.r154.(dropped := 0, captured := 0, fcsFailed := 0),
       ble := s.ble.(counts := NoCounts(), kinds := NoKinds(), seen := 0, timeouts := 0, periodic := false))
  }

  /** A command's effect and the status and value it is answered with. */
  datatype Done = Done(r: Stepped, status: Status, value: uint32)

  function Outcome(t: Tried): (st: Status) {
    if t.err == 0 then Ok else Failed
  }

  /** SET_CHANNEL once the last channel's packets are gone: tuned, then started. */
  function Retuned(f: Stepped, value: uint32, below: Below): (d: Done) {
    var t := Tune(f.s, value % 0x100, below);
    if t.err != 0 then Done(f, BadValue, value)
    else
      var st := Start154(t.r.s, below);
      Done(f.(s := st.r.s), Outcome(st), value)
  }

  function Execute(c: Codes, s: State, command: Command, value: uint32, below: Below): (d: Done) {
    match command
    case SetRadio =>
      if value != RADIO_154 && value != RADIO_BLE then Done(Stepped(s, []), BadValue, value)
      else
        var wanted := if value == RADIO_BLE then RBle else R154;
        var r := if wanted != s.cfg.selected then StopRadio(s, s.cfg.selected, below).r else Stepped(s, []);
        Done(r.(s := r.s.(cfg := r.s.cfg.(selected := wanted))), Ok, value)
    case SetBlePhys =>
      if value > 0xFF then Done(Stepped(s, []), BadValue, value)
      else Done(Stepped(s.(cfg := s.cfg.(phys := value)), []), Ok, value)
    case SetBlePeriodic =>
      Done(Stepped(s.(ble := s.ble.(periodic := value != 0)), []), Ok, value)
    case SetBleScan =>
      Done(Stepped(s.(cfg := s.cfg.(intervalMs := value % 0x1_0000, windowMs := value / 0x1_0000)), []), Ok, value)
    case SetChannel =>
      if s.cfg.selected == RBle then Done(Stepped(s, []), BadValue, value)
      else Retuned(Flush154(s, below.batch), value, below)
    case Start =>
      if s.cfg.selected == RBle then Done(StartBle(s, below).r, Outcome(StartBle(s, below)), 0)
      else Done(Start154(s, below).r, Outcome(Start154(s, below)), 0)
    case Stop =>
      var t := StopRadio(s, s.cfg.selected, below);
      Done(t.r, Outcome(t), 0)
    case GetInfo => Done(Fresh(s, below), Ok, c.firmware)
    case SetAntenna =>
      var t := Antenna(s, value, below);
      Done(t.r, if t.err == 0 then Ok else if t.err == -EINVAL then BadValue else Failed, value)
    case EnergyDetect =>
      if s.cfg.selected == RBle then Done(Stepped(s, []), BadValue, value)
      else
        var channel, symbols := value % 0x100, value / 0x100;
        if channel < 11 || channel > 26 || symbols == 0 then Done(Stepped(s, []), BadValue, value)
        else
          var err := Radio154.EdError(below.ed);
          if err == -EINVAL then Done(Stepped(s, []), BadValue, value)
          else if err != 0 then Done(Stepped(s, []), Failed, value)
          else Done(Stepped(s, []), Ok, B.ToU8(Radio154.Clamp(below.ed.reading.value)))
    case Unknown => Done(Stepped(s, []), UnknownCommand, 0)
  }

  function ReplyBytes(c: Codes, id: byte, d: Done): (p: seq<byte>)
    ensures |p| == 6
  {
    [id, c.status(d.status)] + ToLe(d.value, 4)
  }

  function Word(b0: int, b1: int, b2: int, b3: int): (w: int) {
    b0 + 0x100 * b1 + 0x1_0000 * b2 + 0x100_0000 * b3
  }

  /** The value of a command, least significant byte first. */
  function Value(payload: seq<byte>): (v: uint32)
    requires |payload| >= 5
  {
    Word(payload[1], payload[2], payload[3], payload[4])
  }

  predicate IsCommand(kind: FrameType, payload: seq<byte>) {
    kind == ControlCmd && |payload| >= 5
  }

  function Commanded(c: Codes, s: State, payload: seq<byte>, below: Below): (d: Done)
    requires |payload| >= 5
  {
    Execute(c, s, c.command(payload[0]), Value(payload), below)
  }

  /** As much of a filter frame as fits the accept list. */
  function Kept(payload: seq<byte>): (f: seq<byte>) {
    payload[..ScanStart.FILTER_ENTRY * ScanStart.FilterEntries(payload)]
  }

  /** sn_control_handle */
  function Handle(c: Codes, s: State, kind: FrameType, payload: seq<byte>, below: Below): (r: Stepped) {
    if kind == BleFilter then Stepped(s.(ble := s.ble.(filter := Kept(payload))), [])
    else if kind == BleKeys then
      Stepped(if ScanStart.KeysWellFormed(payload) then s.(ble := s.ble.(keys := payload)) else s, [])
    else if !IsCommand(kind, payload) then Stepped(s, [])
    else
      var d := Commanded(c, s, payload, below);
      Then(d.r, Send(d.r.s, ControlReply, ReplyBytes(c, payload[0], d), below.reply))
  }

  predicate Possible(e: Event) {
    e.HciPacket? ==> |e.data| <= 65534
  }

  function Step(c: Codes, s: State, e: Event): (r: Stepped)
    requires Possible(e)
  {
    match e
    case HostFrame(kind, payload, below) => Handle(c, s, kind, payload, below)
    case Heard154(ts, lqi, rssi, psdu, ring) =>
      Heard(s, B.Packet(s.r154.channel, ts, lqi, rssi, B.Cut(psdu)), ring)
    case BadFcs =>
      Stepped(if s.r154.running then s.(r154 := s.r154.(fcsFailed := Add32(s.r154.fcsFailed, 1))) else s, [])
    case Linger154(ring) => Flush154(s, ring)
    case HciPacket(ts, h4, data, ring) => Forward(s, ts, h4, data, ring)
    case LingerBle(ring) => FlushBle(s, ring)
  }

  /** What happened to a board and what it went through: ss[i] is it after i events. */
  datatype Past = Past(c: Codes, ss: seq<State>, es: seq<Event>)

  ghost predicate IsHistory(h: Past) {
    && |h.ss| == |h.es| + 1
    && forall i {:trigger h.es[i]} :: 0 <= i < |h.es| ==>
         Possible(h.es[i]) && h.ss[i + 1] == Step(h.c, h.ss[i], h.es[i]).s
  }

  /** Any board's history: host frames, packets and timers in any order. */
  type History = h: Past | IsHistory(h) ghost witness Past(Codes(_ => Unknown, _ => 0, 0), [Boot(true)], [])

  ghost predicate FromBoot(h: History) {
    exists ready :: h.ss[0] == Boot(ready)
  }

  /** Some history from boot leads to `s`. */
  ghost predicate Reachable(c: Codes, s: State) {
    exists h: History :: h.c == c && FromBoot(h) && s == h.ss[|h.es|]
  }

  /** Any events whatever make a history. */
  lemma {:induction false} Plays(c: Codes, start: State, es: seq<Event>) returns (h: Past)
    requires forall e :: e in es ==> Possible(e)
    ensures h.c == c && h.es == es && IsHistory(h) && h.ss[0] == start
    decreases |es|
  {
    h := Past(c, [start], es);
    if es != [] {
      var tail := Plays(c, Step(c, start, es[0]).s, es[1..]);
      h := Past(c, [start] + tail.ss, es);
      forall i | 0 <= i < |es| ensures Possible(es[i]) && h.ss[i + 1] == Step(c, h.ss[i], es[i]).s {
        if i > 0 {
          assert tail.es[i - 1] == es[i];
        }
      }
    }
  }
}
