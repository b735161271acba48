/** control.c in its own form, over the radios and batchers in theirs: statics that a
    switch updates, and the setters it calls. Every method is one step of Session, whose
    functions the results are proved about. */
module Control {
  import opened Wire
  import opened Session
  import opened SessionProofs
  import B = Batch154
  import L = BatchBle
  import Batcher154
  import BatcherBle
  import Follower
  import Radio154
  import ScanStart

  class Board {
    const codes: Codes
    // the other files' statics
    const receiver: Radio154.Receiver
    const batcher: Batcher154.Batcher
    const radio: ScanStart.Radio
    const bleBatcher: BatcherBle.BleBatcher
    // control.c
    var selectedRadio: RadioKind
    var blePhys: byte
    var bleIntervalMs: uint16
    var bleWindowMs: uint16
    // the rest of radio_ble.c and link.c that a session shows
    var periodic: bool
    var kinds: Kinds
    var seen: uint32
    var timeouts: uint32
    var scan: Scanning
    var onboard: bool
    var link: LinkCounts
    var sent: seq<Offered>      // every frame offered to the link, in order
    ghost var hist: Totals
    ghost var base: Totals

    ghost predicate Valid()
      reads this, receiver, batcher, batcher.buf, bleBatcher, bleBatcher.bbuf
    {
      && batcher.Valid() && |batcher.open| < B.MAX_ENTRIES
      && bleBatcher.Valid() && |bleBatcher.open| < L.BLE_MAX_ENTRIES
      && batcher.buf != bleBatcher.bbuf
      && !receiver.measuring
    }

    ghost function State154(): (s: S154)
      requires Valid()
      reads this, receiver, batcher, batcher.buf, bleBatcher, bleBatcher.bbuf
    {
      S154(receiver.running, receiver.currentChannel, receiver.captured, receiver.fcsFailed, batcher.open,
           batcher.droppedPackets)
    }

    ghost function StateBle(): (s: SBle)
      requires Valid()
      reads this, receiver, batcher, batcher.buf, bleBatcher, bleBatcher.bbuf, radio
    {
      SBle(radio.running, periodic, ScanStart.Flat(radio.keys), ScanStart.Flat(radio.filter), scan, bleBatcher.open,
           bleBatcher.counters, kinds, seen, timeouts)
    }

    /** All of it as a value. */
    ghost function State(): (s: Session.State)
      requires Valid()
      reads this, receiver, batcher, batcher.buf, bleBatcher, bleBatcher.bbuf, radio
    {
      Session.State(radio.ready, Config(selectedRadio, blePhys, bleIntervalMs, bleWindowMs), State154(), StateBle(),
                    onboard, link, hist, base)
    }

    constructor (c: Codes, controllerUp: bool)
      ensures codes == c && Valid() && State() == Boot(controllerUp) && sent == []
    {
      codes := c;
      receiver := new Radio154.Receiver();
      batcher := new Batcher154.Batcher();
      radio := new ScanStart.Radio(controllerUp);
      bleBatcher := new BatcherBle.BleBatcher();
      selectedRadio, blePhys, bleIntervalMs, bleWindowMs := R154, 1, 0, 0;
      periodic, kinds, seen, timeouts, scan := false, NoKinds(), 0, 0, NotScanning;
      onboard, link, sent := true, NoLink(), [];
      hist, base := NoTotals(), NoTotals();
    }

    /** What the link did with a frame the batchers or reply() offered it. */
    method Record(offer: Offer, ring: Ring)
      modifies this`link, this`sent
      ensures link == Count(old(link), |offer.payload|, ring)
      ensures sent == old(sent) + [Offered(offer.kind, offer.payload, ring.takes)]
    {
      link := Count(link, |offer.payload|, ring);
      sent := sent + [Offered(offer.kind, offer.payload, ring.takes)];
    }

    /** What the 802.15.4 batcher's log says of a close: `closed` went out as one frame. */
    method Settle154(frames: nat, ghost closed: seq<B.Packet>, ring: Ring)
      requires B.WellFormed(closed) && |batcher.attempts| == frames + if closed == [] then 0 else 1
      requires closed != [] ==> batcher.attempts[frames].offer == B.Payload(closed)
      modifies this`link, this`sent, this`hist
      ensures link == Link154(old(link), closed, ring) && hist == Hist154(old(hist), closed, ring)
      ensures sent == old(sent) + Out154(closed, ring)
    {
      assert sent + [] == sent;
      if |batcher.attempts| > frames {
        var offer := batcher.attempts[frames].offer;
        Record(offer, ring);
        hist := hist.(r154 := Settled(hist.r154, |closed|, HEADER_LEN + |offer.payload|, B.PsduBytes(closed), ring.takes));
      }
    }

    method SettleBle(frames: nat, ghost closed: seq<L.Capture>, ring: Ring)
      requires L.WellFormed(closed) && |bleBatcher.attempts| == frames + if closed == [] then 0 else 1
      requires closed != [] ==> bleBatcher.attempts[frames].offer == L.Payload(closed)
      modifies this`link, this`sent, this`hist
      ensures link == LinkBle(old(link), closed, ring) && hist == HistBle(old(hist), closed, ring)
      ensures sent == old(sent) + OutBle(closed, ring)
    {
      assert sent + [] == sent;
      if |bleBatcher.attempts| > frames {
        var offer := bleBatcher.attempts[frames].offer;
        Record(offer, ring);
        hist := hist.(ble := Settled(hist.ble, |closed|, HEADER_LEN + |offer.payload|, L.PacketBytes(closed), ring.takes));
      }
    }

    /** sn_batch_flush, its timer apart; also linger_expired. */
    method FlushBatch(ring: Ring)
      requires Valid()
      modifies this`link, this`sent, this`hist, batcher, batcher.buf
      ensures Valid()
      ensures var r := Flush154(old(State()), ring); State() == r.s && sent == old(sent) + r.out
    {
      ghost var s, closed := State(), batcher.open;
      var frames := |batcher.attempts|;
      batcher.FlushLocked(ring.takes);
      Settle154(frames, closed, ring);
      Closes154(s, closed, ring);
    }

    /** The flush of sn_radio_ble_stop; also ble_linger_expired. */
    method FlushBle(ring: Ring)
      requires Valid()
      modifies this`link, this`sent, this`hist, bleBatcher, bleBatcher.bbuf
      ensures Valid()
      ensures var r := Session.FlushBle(old(State()), ring); State() == r.s && sent == old(sent) + r.out
    {
      ghost var s, closed := State(), bleBatcher.open;
      var frames := |bleBatcher.attempts|;
      bleBatcher.FlushLocked(ring.takes);
      SettleBle(frames, closed, ring);
      ClosesBle(s, closed, ring);
    }

    // ---- packets ----

    /** sn_batch_add, and what the link did with the batch it closed, if it closed one. */
    method AddToBatch(channel: byte, ts: uint64, lqi: byte, rssi: int8, psdu: seq<byte>, ring: Ring)
      requires Valid()
      modifies this`link, this`sent, this`hist, batcher, batcher.buf
      ensures Valid()
      ensures var a := B.Add(old(batcher.open), B.Packet(channel, ts, lqi, rssi, B.Cut(psdu)));
        && B.WellFormed(a.closed) && batcher.open == a.open
        && batcher.droppedPackets == Batcher154.Dropped(old(batcher.droppedPackets), a.closed, ring.takes)
        && link == Link154(old(link), a.closed, ring) && hist == Hist154(old(hist), a.closed, ring)
        && sent == old(sent) + Out154(a.closed, ring)
    {
      ghost var closed := B.Add(batcher.open, B.Packet(channel, ts, lqi, rssi, B.Cut(psdu))).closed;
      var frames := |batcher.attempts|;
      batcher.Add(channel, ts, lqi, rssi, psdu, ring.takes);
      Settle154(frames, closed, ring);
    }

    method Batched(channel: byte, ts: uint64, lqi: byte, rssi: int8, psdu: seq<byte>, ring: Ring)
      requires Valid()
      modifies this`link, this`sent, this`hist, batcher, batcher.buf
      ensures Valid()
      ensures var s := old(State()); var a := B.Add(s.r154.open, B.Packet(channel, ts, lqi, rssi, B.Cut(psdu)));
        && B.WellFormed(a.closed) && B.WellFormed(a.open) && |a.open| < B.MAX_ENTRIES
        && var c := Close154(s, a.closed, ring);
           Did(old(sent), c.(s := c.s.(r154 := c.s.r154.(open := a.open))))
    {
      ghost var s := State();
      AddToBatch(channel, ts, lqi, rssi, psdu, ring);
      Closes154(s, B.Add(s.r154.open, B.Packet(channel, ts, lqi, rssi, B.Cut(psdu))).closed, ring);
    }

    /** The gate at the head of net_recv_data(). */
    method Admit() returns (taken: bool, channel: byte)
      requires Valid()
      modifies this`hist, receiver
      ensures Valid() && taken == old(State()).r154.running && channel == old(State()).r154.channel
      ensures State() == if taken then Took154(old(State())) else old(State())
    {
      taken, channel := receiver.Gate(false);
      if taken {
        hist := hist.(r154 := hist.r154.(heard := hist.r154.heard + 1));
      }
    }

    /** net_recv_data() */
    method Receive(ts: uint64, lqi: byte, rssi: int8, psdu: seq<byte>, ring: Ring)
      requires Valid()
      modifies this`link, this`sent, this`hist, receiver, batcher, batcher.buf
      ensures Valid()
      ensures var s := old(State());
        Did(old(sent), Heard(s, B.Packet(s.r154.channel, ts, lqi, rssi, B.Cut(psdu)), ring))
    {
      assert sent + [] == sent;
      var taken, channel := Admit();
      if taken {
        Batched(channel, ts, lqi, rssi, psdu, ring);
      }
    }

    /** radio_event() on a bad checksum. */
    method BadChecksum()
      requires Valid()
      modifies receiver
      ensures Valid() && State() == Step(codes, old(State()), BadFcs).s
    {
      receiver.BadFcs();
    }

    /** forward(), from its lock on. */
    method AddToBleBatch(ts: uint64, h4: byte, data: seq<byte>, ring: Ring)
      requires Valid() && |data| <= 65534
      modifies this`link, this`sent, this`hist, bleBatcher, bleBatcher.bbuf
      ensures Valid()
      ensures var a := L.Add(old(bleBatcher.open), L.Captured(ts, h4, data));
        && L.WellFormed(a.closed) && bleBatcher.open == a.open
        && bleBatcher.counters == BatcherBle.Counted(BatcherBle.Taken(old(bleBatcher.counters), data), a.closed, ring.takes)
        && link == LinkBle(old(link), a.closed, ring) && hist == HistBle(old(hist), a.closed, ring)
        && sent == old(sent) + OutBle(a.closed, ring)
    {
      ghost var closed := L.Add(bleBatcher.open, L.Captured(ts, h4, data)).closed;
      var frames := |bleBatcher.attempts|;
      bleBatcher.Forward(ts, h4, data, ring.takes);
      SettleBle(frames, closed, ring);
    }

    /** note_counts(), as far as it counts. */
    method NoteCounts(evt: seq<byte>)
      modifies this`kinds
      ensures kinds == CountKind(old(kinds), Classify(evt))
    {
      if |evt| < 3 || evt[0] != 0x3E {
        return;
      }
      if evt[2] == 0x02 || evt[2] == 0x0D {
        kinds := kinds.(adv := Add32(kinds.adv, 1));
      } else if evt[2] == 0x0F || evt[2] == 0x25 {
        kinds := kinds.(reports := Add32(kinds.reports, 1));
      } else if evt[2] == 0x0E || evt[2] == 0x24 {
        if |evt| >= 4 && evt[3] == 0 {
          kinds := kinds.(synced := Add32(kinds.synced, 1));
        } else {
          kinds := kinds.(refused := Add32(kinds.refused, 1));
        }
      }
    }

    /** forward() before its lock: the counts, and the announcement looked for in the first
        32 bytes. */
    method Notice(h4: byte, data: seq<byte>)
      modifies this`kinds, this`seen
      ensures kinds == CountKind(old(kinds), ClassOf(h4, data))
      ensures seen == if periodic && h4 == L.H4_EVENT && Follower.Announces([h4] + data) then Add32(old(seen), 1)
                      else old(seen)
    {
      if h4 != L.H4_EVENT {
        return;
      }
      NoteCounts(data);
      if periodic {
        var packet := [h4] + data;
        var peek := if |packet| > 32 then packet[..32] else packet;
        if Follower.Announces(peek) {
          seen := Add32(seen, 1);
        }
      }
    }

    method BatchedBle(ts: uint64, h4: byte, data: seq<byte>, ring: Ring)
      requires Valid() && |data| <= 65534
      modifies this`link, this`sent, this`hist, bleBatcher, bleBatcher.bbuf
      ensures Valid()
      ensures var s := old(State()); var a := L.Add(s.ble.open, L.Captured(ts, h4, data));
        && L.WellFormed(a.closed) && L.WellFormed(a.open) && |a.open| < L.BLE_MAX_ENTRIES
        && var c := CloseBle(Counting(s, data), a.closed, ring);
           Did(old(sent), c.(s := c.s.(ble := c.s.ble.(open := a.open))))
    {
      ghost var s := State();
      AddToBleBatch(ts, h4, data, ring);
      ClosesBle(Counting(s, data), L.Add(s.ble.open, L.Captured(ts, h4, data)).closed, ring);
    }

    /** Everything forward() counts but for the batch's own counters. */
    method Observe(h4: byte, data: seq<byte>)
      requires Valid()
      modifies this`hist, this`kinds, this`seen
      ensures Valid()
      ensures State() == Noted(old(State()), h4, data)
    {
      ghost var s := State();
      Notice(h4, data);
      assert State() == s.(ble := s.ble.(kinds := kinds, seen := seen));
      hist := Totals(hist.r154, hist.ble.(heard := hist.ble.heard + 1), AddKind(hist.kinds, ClassOf(h4, data)));
    }

    /** One turn of fwd_loop(), its answers to commands apart. */
    method TakeHci(ts: uint64, h4: byte, data: seq<byte>, ring: Ring)
      requires Valid() && |data| <= 65534
      modifies this`link, this`sent, this`hist, this`kinds, this`seen, bleBatcher, bleBatcher.bbuf
      ensures Valid() && Did(old(sent), Session.Forward(old(State()), ts, h4, data, ring))
    {
      assert sent + [] == sent;
      if radio.running && (h4 == L.H4_ISO || (h4 == L.H4_EVENT && |data| > 0 && data[0] != 0x0E && data[0] != 0x0F)) {
        NotedIsTallied(State(), h4, data);
        Observe(h4, data);
        BatchedBle(ts, h4, data, ring);
      }
    }

    // ---- commands ----

    /** reply() */
    method Reply(command: byte, status: Status, value: uint32, ring: Ring)
      requires Valid()
      modifies this`link, this`sent
      ensures Valid()
      ensures var p := [command, codes.status(status)] + ToLe(value, 4);
        && State() == old(State()).(link := Count(old(link), 6, ring))
        && sent == old(sent) + [Offered(ControlReply, p, ring.takes)]
    {
      Record(Offer(ControlReply, [command, codes.status(status)] + ToLe(value, 4)), ring);
    }

    /** stop_radio() on 802.15.4: the receiver, then its open batch. */
    method StopReceiver(below: Below) returns (err: int)
      requires Valid()
      modifies this`link, this`sent, this`hist, receiver, batcher, batcher.buf
      ensures Valid()
      ensures var t := Session.Stop154(old(State()), below);
        State() == t.r.s && sent == old(sent) + t.r.out && err == t.err
    {
      ghost var s := State();
      err := receiver.Stop(below.stop154);
      assert State() == s.(r154 := s.r154.(running := s.r154.running && below.stop154 != 0));
      FlushBatch(below.batch);
    }

    method HaltBle()
      requires Valid()
      modifies this`scan, radio
      ensures Valid() && State() == Halted(old(State()))
    {
      radio.Halt();
      scan := NotScanning;
    }

    method ResetBle(below: Below) returns (err: int)
      requires Valid() && !radio.running
      modifies this`timeouts, radio
      ensures Valid() && State() == AddTimeouts(old(State()), below.timeouts)
    {
      err := radio.ResetController();
      timeouts := Add32(timeouts, below.timeouts);
    }

    /** sn_radio_ble_stop(). What the reset came to is the controller's answer. */
    method StopBle(below: Below) returns (err: int)
      requires Valid() && radio.ready
      modifies this`link, this`sent, this`hist, this`scan, this`timeouts, bleBatcher, bleBatcher.bbuf, radio
      ensures Valid()
      ensures var t := Session.StopBle(old(State()), below.(bleReset := err));
        State() == t.r.s && sent == old(sent) + t.r.out && err == t.err
    {
      HaltBle();
      ghost var halted := State();
      FlushBle(below.bleBatch);
      assert !halted.ble.running && State().ble.running == halted.ble.running;
      err := ResetBle(below);
    }

    /** stop_radio(). Only a BLE stop depends on the controller. */
    method StopRadio(which: RadioKind, below: Below) returns (err: int)
      requires Valid()
      modifies this`link, this`sent, this`hist, this`scan, this`timeouts
      modifies receiver, batcher, batcher.buf, bleBatcher, bleBatcher.bbuf, radio
      ensures Valid()
      ensures var t := Session.StopRadio(old(State()), which, if which == RBle then below.(bleReset := err) else below);
        State() == t.r.s && sent == old(sent) + t.r.out && err == t.err
    {
      if which == RBle {
        if !radio.ready {
          assert sent + [] == sent;
          return 0;
        }
        err := StopBle(below);
      } else {
        err := StopReceiver(below);
      }
    }

    /** set_antenna() */
    method SetAntenna(value: uint32, below: Below) returns (err: int)
      requires Valid()
      modifies this`onboard
      ensures Valid()
      ensures var t := Session.Antenna(old(State()), value, below);
        State() == t.r.s && t.r.out == [] && err == t.err
    {
      if value > 1 {
        return -EINVAL;
      }
      if !below.antennaReady {
        return -19;
      }
      if (value == 0) == onboard {
        return 0;
      }
      if below.antennaErr == 0 {
        onboard := value == 0;
      }
      err := below.antennaErr;
    }

    /** The state and the frames a command should leave. */
    ghost predicate Did(was: seq<Offered>, r: Stepped)
      requires Valid()
      reads this, receiver, batcher, batcher.buf, bleBatcher, bleBatcher.bbuf, radio
    {
      State() == r.s && sent == was + r.out
    }

    /** `seen` is what the command met below: `below`, with the controller's own answers. */
    method SelectRadio(value: uint32, below: Below) returns (status: Status, ghost seen: Below)
      requires Valid()
      modifies this, receiver, batcher, batcher.buf, bleBatcher, bleBatcher.bbuf, radio
      ensures Valid() && seen == below.(bleReset := seen.bleReset)
      ensures var d := Execute(codes, old(State()), SetRadio, value, seen); Did(old(sent), d.r) && status == d.status
    {
      seen := below;
      assert sent + [] == sent;
      if value != RADIO_154 && value != RADIO_BLE {
        return BadValue, seen;
      }
      var wanted := if value == RADIO_BLE then RBle else R154;
      if wanted != selectedRadio {
        var err := StopRadio(selectedRadio, below);
        if selectedRadio == RBle {
          seen := below.(bleReset := err);
        }
      }
      ghost var s := State();
      selectedRadio := wanted;
      assert State() == s.(cfg := s.cfg.(selected := wanted));
      status := Ok;
    }

    /** The tuning and the start that follow SET_CHANNEL's flush. */
    method Retune(value: uint32, below: Below) returns (status: Status)
      requires Valid()
      modifies receiver
      ensures Valid()
      ensures var d := Retuned(Stepped(old(State()), []), value, below); State() == d.r.s && status == d.status
    {
      var err := receiver.SetChannel(value % 0x100, below.tune);
      if err != 0 {
        return BadValue;
      }
      err := receiver.Start(below.start154);
      status := if err == 0 then Ok else Failed;
    }

    method ChangeChannel(value: uint32, below: Below) returns (status: Status)
      requires Valid()
      modifies this`link, this`sent, this`hist, receiver, batcher, batcher.buf
      ensures Valid()
      ensures var d := Execute(codes, old(State()), SetChannel, value, below); Did(old(sent), d.r) && status == d.status
    {
      if selectedRadio == RBle {
        assert sent + [] == sent;
        return BadValue;
      }
      FlushBatch(below.batch);
      status := Retune(value, below);
    }

    /** The controller holds what START found in the host's frames, and scans with it. */
    ghost predicate Loaded()
      reads this, radio
    {
      scan.Scanning? && ScanStart.Loaded(radio.ctl, scan.keys, scan.filter, scan.intervalMs, scan.windowMs, scan.phys)
    }

    /** sn_radio_ble_start(), with the settings held for it. */
    method LaunchScan() returns (err: int)
      requires Valid()
      modifies radio
      ensures Valid() && radio.ready == old(radio.ready)
      ensures radio.keys == old(radio.keys) && radio.filter == old(radio.filter)
      ensures radio.running == (old(radio.running) || err == 0)
      ensures !radio.ready ==> err == -19
      ensures err == 0 && ScanStart.Calm(old(radio.stale)) ==>
        ScanStart.Loaded(radio.ctl, ScanStart.Flat(radio.keys), ScanStart.Flat(radio.filter), bleIntervalMs, bleWindowMs, blePhys)
    {
      ScanStart.KeysFromBytes(radio.keys);
      ScanStart.FilterFromBytes(radio.filter);
      err := radio.Start(bleIntervalMs, bleWindowMs, blePhys);
    }

    /** What a START leaves in the session. */
    method NoteStart(err: int, below: Below)
      requires Valid() && (!radio.ready ==> err != 0)
      modifies this`scan, this`timeouts
      ensures Valid()
      ensures var t := StartBle(old(State()), below.(bleStart := err)); radio.ready && radio.running == t.r.s.ble.running ==> State() == t.r.s
      ensures !radio.ready ==> State() == old(State())
      ensures err == 0 ==> scan == Scanning(bleIntervalMs, bleWindowMs, blePhys, ScanStart.Flat(radio.keys), ScanStart.Flat(radio.filter))
    {
      if radio.ready {
        timeouts := Add32(timeouts, below.timeouts);
      }
      if err == 0 {
        scan := Scanning(bleIntervalMs, bleWindowMs, blePhys, ScanStart.Flat(radio.keys), ScanStart.Flat(radio.filter));
      }
    }

    method StartScan(below: Below) returns (err: int)
      requires Valid()
      modifies this`scan, this`timeouts, radio
      ensures Valid()
      ensures var t := StartBle(old(State()), below.(bleStart := err)); State() == t.r.s && t.r.out == [] && err == t.err
      ensures err == 0 && ScanStart.Calm(old(radio.stale)) ==> Loaded()
    {
      ghost var s := State();
      err := LaunchScan();
      assert State() == s.(ble := s.ble.(running := s.ble.running || err == 0));
      NoteStart(err, below);
    }

    /** sn_radio154_start() */
    method StartReceiver(below: Below) returns (err: int)
      requires Valid()
      modifies receiver
      ensures Valid()
      ensures var t := Start154(old(State()), below); State() == t.r.s && t.r.out == [] && err == t.err
    {
      err := receiver.Start(below.start154);
    }

    method StartSelected(below: Below) returns (status: Status, ghost seen: Below)
      requires Valid()
      modifies this`scan, this`timeouts, receiver, radio
      ensures Valid() && seen == below.(bleStart := seen.bleStart)
      ensures var d := Execute(codes, old(State()), Start, 0, seen); Did(old(sent), d.r) && status == d.status
      ensures status == Ok && selectedRadio == RBle && ScanStart.Calm(old(radio.stale)) ==> Loaded()
    {
      assert sent + [] == sent;
      seen := below;
      var err;
      if selectedRadio == RBle {
        err := StartScan(below);
        seen := below.(bleStart := err);
      } else {
        err := StartReceiver(below);
      }
      status := if err == 0 then Ok else Failed;
    }

    /** Both radios stopped, as GET_INFO does first. */
    method StopBoth(below: Below)
      requires Valid()
      modifies this`link, this`sent, this`hist, this`scan, this`timeouts
      modifies receiver, batcher, batcher.buf, bleBatcher, bleBatcher.bbuf, radio
      ensures Valid()
      ensures var a := Session.Stop154(old(State()), below).r; var b := Session.StopBle(a.s, below).r;
        Did(old(sent), Stepped(b.s, a.out + b.out))
    {
      ghost var was := sent;
      var _ := StopReceiver(below);
      ghost var s, between := State(), sent;
      var err := StopRadio(RBle, below);
      assert Session.StopBle(s, below.(bleReset := err)).r == Session.StopBle(s, below).r;
      assert between + Session.StopBle(s, below).r.out == was + (between[|was|..] + Session.StopBle(s, below).r.out);
    }

    method ClearReceiver()
      requires Valid()
      modifies receiver, batcher
      ensures Valid()
      ensures var s := old(State()); State() == s.(r154 := s.r154.(dropped := 0, captured := 0, fcsFailed := 0))
    {
      batcher.ResetCounters();
      receiver.ResetCounters();
    }

    method ClearNotes()
      requires Valid()
      modifies this`kinds, this`seen, this`timeouts, this`periodic
      ensures Valid()
      ensures var s := old(State());
        State() == s.(ble := s.ble.(kinds := NoKinds(), seen := 0, timeouts := 0, periodic := false))
    {
      kinds, seen, timeouts, periodic := NoKinds(), 0, 0, false;
    }

    method ClearBle()
      requires Valid()
      modifies this`kinds, this`seen, this`timeouts, this`periodic, bleBatcher
      ensures Valid()
      ensures var s := old(State());
        State() == s.(ble := s.ble.(counts := NoCounts(), kinds := NoKinds(), seen := 0, timeouts := 0, periodic := false))
    {
      ClearNotes();
      bleBatcher.ResetCounters();
    }

    method ClearConfig()
      requires Valid()
      modifies this`selectedRadio, this`blePhys, this`bleIntervalMs, this`bleWindowMs, this`link, this`base
      ensures Valid()
      ensures State() == old(State()).(cfg := DEFAULTS, link := NoLink(), base := old(hist))
    {
      selectedRadio, link := R154, NoLink();
      blePhys, bleIntervalMs, bleWindowMs := 1, 0, 0;
      base := hist;
    }

    /** The selections and counters GET_INFO puts back. */
    method ClearSettings()
      requires Valid()
      modifies this`kinds, this`seen, this`timeouts, this`periodic
      modifies this`selectedRadio, this`blePhys, this`bleIntervalMs, this`bleWindowMs, this`link, this`base
      modifies receiver, batcher, bleBatcher
      ensures Valid() && State() == Cleared(old(State()))
    {
      ClearReceiver();
      ClearBle();
      ClearConfig();
    }

    method OpenSession(below: Below)
      requires Valid()
      modifies this, receiver, batcher, batcher.buf, bleBatcher, bleBatcher.bbuf, radio
      ensures Valid() && Did(old(sent), Fresh(old(State()), below))
    {
      StopBoth(below);
      ClearSettings();
      var _ := SetAntenna(0, below);
    }

    /** An energy measurement: the receiver is borrowed and the session unchanged. */
    method Measure(value: uint32, below: Below) returns (status: Status, answer: uint32)
      requires Valid()
      modifies receiver
      ensures Valid()
      ensures var d := Execute(codes, old(State()), EnergyDetect, value, below);
        Did(old(sent), d.r) && status == d.status && answer == d.value
    {
      assert sent + [] == sent;
      if selectedRadio == RBle {
        return BadValue, value;
      }
      var err, dbm := receiver.EnergyDetect(value % 0x100, value / 0x100, below.ed);
      if err == -EINVAL {
        return BadValue, value;
      }
      if err != 0 {
        return Failed, value;
      }
      return Ok, B.ToU8(dbm);
    }

    /** SET_BLE_PHYS */
    method SetPhys(value: uint32, below: Below) returns (status: Status)
      requires Valid()
      modifies this`blePhys
      ensures Valid()
      ensures var d := Execute(codes, old(State()), SetBlePhys, value, below);
        State() == d.r.s && d.r.out == [] && status == d.status && d.value == value
    {
      if value > 0xFF {
        return BadValue;
      }
      blePhys := value;
      status := Ok;
    }

    /** SET_BLE_PERIODIC */
    method SetPeriodic(value: uint32, below: Below) returns (status: Status)
      requires Valid()
      modifies this`periodic
      ensures Valid()
      ensures var d := Execute(codes, old(State()), SetBlePeriodic, value, below);
        State() == d.r.s && d.r.out == [] && status == d.status && d.value == value
    {
      periodic := value != 0;
      status := Ok;
    }

    /** SET_BLE_SCAN */
    method SetTiming(value: uint32, below: Below) returns (status: Status)
      requires Valid()
      modifies this`bleIntervalMs, this`bleWindowMs
      ensures Valid()
      ensures var d := Execute(codes, old(State()), SetBleScan, value, below);
        State() == d.r.s && d.r.out == [] && status == d.status && d.value == value
    {
      bleIntervalMs, bleWindowMs := value % 0x1_0000, value / 0x1_0000;
      status := Ok;
    }

    /** The cases of the switch that start and stop no radio. */
    method Adjust(command: Command, value: uint32, below: Below) returns (status: Status, answer: uint32)
      requires Valid() && !Drives(command)
      modifies this`blePhys, this`periodic, this`bleIntervalMs, this`bleWindowMs, this`onboard, receiver
      ensures Valid()
      ensures var d := Execute(codes, old(State()), command, value, below);
        Did(old(sent), d.r) && status == d.status && answer == d.value
    {
      assert sent + [] == sent;
      answer := value;
      if command == SetBlePhys {
        status := SetPhys(value, below);
      } else if command == SetBlePeriodic {
        status := SetPeriodic(value, below);
      } else if command == SetBleScan {
        status := SetTiming(value, below);
      } else if command.SetAntenna? {
        var err := SetAntenna(value, below);
        status := if err == 0 then Ok else if err == -EINVAL then BadValue else Failed;
      } else if command == EnergyDetect {
        status, answer := Measure(value, below);
      } else {
        status, answer := UnknownCommand, 0;
      }
    }

    /** START and STOP. */
    method Run(command: Command, below: Below) returns (status: Status, ghost seen: Below)
      requires Valid() && (command == Start || command == Stop)
      modifies this`link, this`sent, this`hist, this`scan, this`timeouts
      modifies receiver, batcher, batcher.buf, bleBatcher, bleBatcher.bbuf, radio
      ensures Valid() && seen == below.(bleStart := seen.bleStart, bleReset := seen.bleReset)
      ensures forall value :: var d := Execute(codes, old(State()), command, value, seen);
        Did(old(sent), d.r) && status == d.status && d.value == 0
      ensures command == Start && old(selectedRadio) == RBle && status == Ok && ScanStart.Calm(old(radio.stale)) ==> Loaded()
    {
      ghost var s := State();
      if command == Start {
        status, seen := StartSelected(below);
      } else {
        status, seen := StopSelected(below);
      }
      assert forall value :: Execute(codes, s, command, value, seen) == Execute(codes, s, command, 0, seen);
    }

    /** The cases that do. */
    method Drive(command: Command, value: uint32, below: Below)
      returns (status: Status, answer: uint32, ghost seen: Below)
      requires Valid() && (command == SetRadio || command == SetChannel || command == GetInfo)
      modifies this, receiver, batcher, batcher.buf, bleBatcher, bleBatcher.bbuf, radio
      ensures Valid() && seen == below.(bleStart := seen.bleStart, bleReset := seen.bleReset)
      ensures var d := Execute(codes, old(State()), command, value, seen);
        Did(old(sent), d.r) && status == d.status && answer == d.value
    {
      seen, answer := below, value;
      if command == SetRadio {
        status, seen := SelectRadio(value, below);
      } else if command == SetChannel {
        status := ChangeChannel(value, below);
      } else {
        OpenSession(below);
        status, answer := Ok, codes.firmware;
      }
    }

    /** The switch. */
    method Perform(command: Command, value: uint32, below: Below)
      returns (status: Status, answer: uint32, ghost seen: Below)
      requires Valid()
      modifies this, receiver, batcher, batcher.buf, bleBatcher, bleBatcher.bbuf, radio
      ensures Valid() && seen == below.(bleStart := seen.bleStart, bleReset := seen.bleReset)
      ensures var d := Execute(codes, old(State()), command, value, seen);
        Did(old(sent), d.r) && status == d.status && answer == d.value
      ensures command == Start && old(selectedRadio) == RBle && status == Ok && ScanStart.Calm(old(radio.stale)) ==> Loaded()
    {
      if command == Start || command == Stop {
        status, seen := Run(command, below);
        answer := 0;
      } else if Drives(command) {
        status, answer, seen := Drive(command, value, below);
      } else {
        status, answer := Adjust(command, value, below);
        seen := below;
      }
    }

    method StopSelected(below: Below) returns (status: Status, ghost seen: Below)
      requires Valid()
      modifies this`link, this`sent, this`hist, this`scan, this`timeouts
      modifies receiver, batcher, batcher.buf, bleBatcher, bleBatcher.bbuf, radio
      ensures Valid() && seen == below.(bleReset := seen.bleReset)
      ensures var d := Execute(codes, old(State()), Stop, 0, seen); Did(old(sent), d.r) && status == d.status
    {
      var err := StopRadio(selectedRadio, below);
      seen := if selectedRadio == RBle then below.(bleReset := err) else below;
      status := if err == 0 then Ok else Failed;
    }

    method TakeFilter(payload: seq<byte>)
      requires Valid()
      modifies radio
      ensures Valid() && State() == old(State()).(ble := old(State()).ble.(filter := Kept(payload)))
    {
      radio.SetFilter(payload);
      ScanStart.FlatEntries(payload, ScanStart.FILTER_ENTRY, ScanStart.FilterEntries(payload));
    }

    method TakeKeys(payload: seq<byte>)
      requires Valid()
      modifies radio
      ensures Valid()
      ensures State() == if ScanStart.KeysWellFormed(payload) then old(State()).(ble := old(State()).ble.(keys := payload))
                         else old(State())
    {
      var err := radio.SetKeys(payload);
      if err == 0 {
        ScanStart.FlatEntries(payload, ScanStart.KEY_ENTRY, |radio.keys|);
        assert payload[..|payload|] == payload;
      }
    }

    /** sn_control_handle() */
    method HandleFrame(kind: FrameType, payload: seq<byte>, below: Below) returns (ghost seen: Below)
      requires Valid()
      modifies this, receiver, batcher, batcher.buf, bleBatcher, bleBatcher.bbuf, radio
      ensures Valid() && seen == below.(bleStart := seen.bleStart, bleReset := seen.bleReset)
      ensures Did(old(sent), Handle(codes, old(State()), kind, payload, seen))
    {
      assert sent + [] == sent;
      seen := below;
      if kind == BleFilter {
        TakeFilter(payload);
        return;
      }
      if kind == BleKeys {
        TakeKeys(payload);
        return;
      }
      if kind != ControlCmd || |payload| < 5 {
        return;
      }
      seen := Command(payload, below);
    }

    /** A command and its reply. */
    method Command(payload: seq<byte>, below: Below) returns (ghost seen: Below)
      requires Valid() && |payload| >= 5
      modifies this, receiver, batcher, batcher.buf, bleBatcher, bleBatcher.bbuf, radio
      ensures Valid() && seen == below.(bleStart := seen.bleStart, bleReset := seen.bleReset)
      ensures var d := Commanded(codes, old(State()), payload, seen);
        Did(old(sent), Then(d.r, Send(d.r.s, ControlReply, ReplyBytes(codes, payload[0], d), seen.reply)))
    {
      ghost var s, was := State(), sent;
      var status, answer;
      status, answer, seen := Perform(codes.command(payload[0]), Value(payload), below);
      ghost var d := Commanded(codes, s, payload, seen);
      Reply(payload[0], status, answer, below.reply);
      Associate(was, d.r.out, [Offered(ControlReply, ReplyBytes(codes, payload[0], d), below.reply.takes)]);
    }
  }

  // ---- what closing a batch leaves of each ----

  function Link154(link: LinkCounts, closed: seq<B.Packet>, ring: Ring): (r: LinkCounts)
    requires B.WellFormed(closed)
  {
    if closed == [] then link else Count(link, |B.Payload(closed).payload|, ring)
  }

  function Hist154(hist: Totals, closed: seq<B.Packet>, ring: Ring): (r: Totals)
    requires B.WellFormed(closed)
  {
    if closed == [] then hist
    else hist.(r154 := Settled(hist.r154, |closed|, HEADER_LEN + |B.Payload(closed).payload|, B.PsduBytes(closed), ring.takes))
  }

  function Out154(closed: seq<B.Packet>, ring: Ring): (out: seq<Offered>)
    requires B.WellFormed(closed)
  {
    if closed == [] then [] else [Offered(B.Payload(closed).kind, B.Payload(closed).payload, ring.takes)]
  }

  function LinkBle(link: LinkCounts, closed: seq<L.Capture>, ring: Ring): (r: LinkCounts)
    requires L.WellFormed(closed)
  {
    if closed == [] then link else Count(link, |L.Payload(closed).payload|, ring)
  }

  function HistBle(hist: Totals, closed: seq<L.Capture>, ring: Ring): (r: Totals)
    requires L.WellFormed(closed)
  {
    if closed == [] then hist
    else hist.(ble := Settled(hist.ble, |closed|, HEADER_LEN + |L.Payload(closed).payload|, L.PacketBytes(closed), ring.takes))
  }

  function OutBle(closed: seq<L.Capture>, ring: Ring): (out: seq<Offered>)
    requires L.WellFormed(closed)
  {
    if closed == [] then [] else [Offered(L.Payload(closed).kind, L.Payload(closed).payload, ring.takes)]
  }

  lemma Closes154(s: Session.State, closed: seq<B.Packet>, ring: Ring)
    requires B.WellFormed(closed)
    ensures Close154(s, closed, ring).out == Out154(closed, ring)
    ensures Close154(s, closed, ring).s ==
      s.(link := Link154(s.link, closed, ring), hist := Hist154(s.hist, closed, ring),
         r154 := s.r154.(dropped := Batcher154.Dropped(s.r154.dropped, closed, ring.takes)))
  {
  }

  lemma ClosesBle(s: Session.State, closed: seq<L.Capture>, ring: Ring)
    requires L.WellFormed(closed)
    ensures CloseBle(s, closed, ring).out == OutBle(closed, ring)
    ensures CloseBle(s, closed, ring).s ==
      s.(link := LinkBle(s.link, closed, ring), hist := HistBle(s.hist, closed, ring),
         ble := s.ble.(counts := BatcherBle.Counted(s.ble.counts, closed, ring.takes)))
  {
  }

  /** What forward() counts before its lock. */
  function Noted(s: Session.State, h4: byte, data: seq<byte>): (r: Session.State) {
    var noticed := s.ble.periodic && h4 == L.H4_EVENT && Follower.Announces([h4] + data);
    s.(ble := s.ble.(kinds := CountKind(s.ble.kinds, ClassOf(h4, data)),
                     seen := if noticed then Add32(s.ble.seen, 1) else s.ble.seen),
       hist := Totals(s.hist.r154, s.hist.ble.(heard := s.hist.ble.heard + 1), AddKind(s.hist.kinds, ClassOf(h4, data))))
  }

  lemma NotedIsTallied(s: Session.State, h4: byte, data: seq<byte>)
    ensures Counting(Noted(s, h4, data), data) == Tally(s, h4, data)
  {
  }

  /** The batch's own counters. */
  function Counting(s: Session.State, data: seq<byte>): (r: Session.State) {
    s.(ble := s.ble.(counts := BatcherBle.Taken(s.ble.counts, data)))
  }

  predicate Drives(command: Command) {
    command == SetRadio || command == SetChannel || command == Start || command == Stop || command == GetInfo
  }

  lemma Associate(a: seq<Offered>, b: seq<Offered>, c: seq<Offered>)
    ensures (a + b) + c == a + (b + c)
  {
  }
}
