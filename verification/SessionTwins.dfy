/** Two boards side by side: what a session's history can and cannot change. */
module SessionTwins {
  import opened Wire
  import opened Session
  import opened SessionProofs
  import B = Batch154
  import L = BatchBle

  /** Both steps end alike and send the same frames. */
  ghost predicate Alike(a: Stepped, b: Stepped) {
    SameBoard(a.s, b.s) && a.out == b.out
  }

  lemma Close154Alike(s: State, t: State, closed: seq<B.Packet>, ring: Ring)
    requires SameBoard(s, t) && B.WellFormed(closed)
    ensures Alike(Close154(s, closed, ring), Close154(t, closed, ring))
  {
  }

  lemma CloseBleAlike(s: State, t: State, closed: seq<L.Capture>, ring: Ring)
    requires SameBoard(s, t) && L.WellFormed(closed)
    ensures Alike(CloseBle(s, closed, ring), CloseBle(t, closed, ring))
  {
  }

  lemma Flush154Alike(s: State, t: State, ring: Ring)
    requires SameBoard(s, t)
    ensures Alike(Flush154(s, ring), Flush154(t, ring))
  {
    Close154Alike(s, t, s.r154.open, ring);
  }

  lemma FlushBleAlike(s: State, t: State, ring: Ring)
    requires SameBoard(s, t)
    ensures Alike(FlushBle(s, ring), FlushBle(t, ring))
  {
    CloseBleAlike(s, t, s.ble.open, ring);
  }

  lemma HeardAlike(s: State, t: State, p: B.Packet, ring: Ring)
    requires SameBoard(s, t) && |p.psdu| <= B.MAX_PSDU
    ensures Alike(Heard(s, p, ring), Heard(t, p, ring))
  {
    if s.r154.running {
      B.AddKeeps(s.r154.open, p);
      Close154Alike(Took154(s), Took154(t), B.Add(s.r154.open, p).closed, ring);
    }
  }

  lemma ForwardAlike(s: State, t: State, ts: uint64, h4: byte, data: seq<byte>, ring: Ring)
    requires SameBoard(s, t) && |data| <= 65534
    ensures Alike(Forward(s, ts, h4, data, ring), Forward(t, ts, h4, data, ring))
  {
    if Forwarded(s, h4, data) {
      var p := L.Captured(ts, h4, data);
      L.CapturedIsSound(ts, h4, data);
      L.AddKeeps(s.ble.open, p);
      CloseBleAlike(Tally(s, h4, data), Tally(t, h4, data), L.Add(s.ble.open, p).closed, ring);
    }
  }

  lemma Stop154Alike(s: State, t: State, below: Below)
    requires SameBoard(s, t)
    ensures Alike(Stop154(s, below).r, Stop154(t, below).r) && Stop154(s, below).err == Stop154(t, below).err
  {
    var err := if s.r154.running then below.stop154 else 0;
    var running := s.r154.running && err != 0;
    Flush154Alike(s.(r154 := s.r154.(running := running)), t.(r154 := t.r154.(running := running)), below.batch);
  }

  lemma StopBleAlike(s: State, t: State, below: Below)
    requires SameBoard(s, t)
    ensures Alike(StopBle(s, below).r, StopBle(t, below).r) && StopBle(s, below).err == StopBle(t, below).err
  {
    FlushBleAlike(Halted(s), Halted(t), below.bleBatch);
  }

  lemma StopRadioAlike(s: State, t: State, radio: RadioKind, below: Below)
    requires SameBoard(s, t)
    ensures Alike(StopRadio(s, radio, below).r, StopRadio(t, radio, below).r)
    ensures StopRadio(s, radio, below).err == StopRadio(t, radio, below).err
  {
    Stop154Alike(s, t, below);
    StopBleAlike(s, t, below);
  }

  lemma FreshAlike(s: State, t: State, below: Below)
    requires SameBoard(s, t)
    ensures Alike(Fresh(s, below), Fresh(t, below))
  {
    Stop154Alike(s, t, below);
    StopBleAlike(Stop154(s, below).r.s, Stop154(t, below).r.s, below);
  }

  lemma RetunedAlike(f: Stepped, g: Stepped, value: uint32, below: Below)
    requires Alike(f, g)
    ensures DoneAlike(Retuned(f, value, below), Retuned(g, value, below))
  {
  }

  ghost predicate DoneAlike(d: Done, e: Done) {
    Alike(d.r, e.r) && d.status == e.status && d.value == e.value
  }

  lemma SettingsAlike(c: Codes, s: State, t: State, command: Command, value: uint32, below: Below)
    requires SameBoard(s, t) && !Moves(command)
    ensures DoneAlike(Execute(c, s, command, value, below), Execute(c, t, command, value, below))
  {
  }

  lemma MovesAlike(c: Codes, s: State, t: State, command: Command, value: uint32, below: Below)
    requires SameBoard(s, t) && Moves(command)
    ensures DoneAlike(Execute(c, s, command, value, below), Execute(c, t, command, value, below))
  {
    if command == SetRadio || command == Stop {
      StopRadioAlike(s, t, s.cfg.selected, below);
    } else if command == GetInfo {
      FreshAlike(s, t, below);
    } else {
      Flush154Alike(s, t, below.batch);
      RetunedAlike(Flush154(s, below.batch), Flush154(t, below.batch), value, below);
    }
  }

  lemma HandleAlike(c: Codes, s: State, t: State, kind: FrameType, payload: seq<byte>, below: Below)
    requires SameBoard(s, t)
    ensures Alike(Handle(c, s, kind, payload, below), Handle(c, t, kind, payload, below))
  {
    if IsCommand(kind, payload) {
      var command, value := c.command(payload[0]), Value(payload);
      if Moves(command) {
        MovesAlike(c, s, t, command, value, below);
      } else {
        SettingsAlike(c, s, t, command, value, below);
      }
    }
  }

  lemma StepAlike(c: Codes, s: State, t: State, e: Event)
    requires SameBoard(s, t) && Possible(e)
    ensures Alike(Step(c, s, e), Step(c, t, e))
  {
    match e
    case HostFrame(kind, payload, below) => HandleAlike(c, s, t, kind, payload, below);
    case Heard154(ts, lqi, rssi, psdu, ring) =>
      HeardAlike(s, t, B.Packet(s.r154.channel, ts, lqi, rssi, B.Cut(psdu)), ring);
    case BadFcs =>
    case Linger154(ring) => Flush154Alike(s, t, ring);
    case HciPacket(ts, h4, data, ring) => ForwardAlike(s, t, ts, h4, data, ring);
    case LingerBle(ring) => FlushBleAlike(s, t, ring);
  }

  lemma {:induction false} TwinsStayAlike(h: History, k: History, n: nat)
    requires h.c == k.c && h.es == k.es && SameBoard(h.ss[0], k.ss[0]) && n <= |h.es|
    ensures SameBoard(h.ss[n], k.ss[n])
    decreases n
  {
    if n > 0 {
      TwinsStayAlike(h, k, n - 1);
      assert h.es[n - 1] == k.es[n - 1];
      StepAlike(h.c, h.ss[n - 1], k.ss[n - 1], h.es[n - 1]);
    }
  }

  /** Boards alike stay alike and send the same frames for good, whatever happens to both:
      replies, packets and counters. */
  lemma TwinsSendAlike(h: History, k: History, n: nat)
    requires h.c == k.c && h.es == k.es && SameBoard(h.ss[0], k.ss[0]) && n < |h.es|
    ensures Possible(h.es[n]) && Alike(Step(h.c, h.ss[n], h.es[n]), Step(k.c, k.ss[n], k.es[n]))
  {
    TwinsStayAlike(h, k, n);
    StepAlike(h.c, h.ss[n], k.ss[n], h.es[n]);
  }

  lemma FilterAlike(c: Codes, s: State, t: State, filter: seq<byte>, below: Below)
    requires SameSession(s, t)
    ensures var s' := Handle(c, s, BleFilter, filter, below).s; var t' := Handle(c, t, BleFilter, filter, below).s;
      && SameBoard(s', t'.(r154 := t'.r154.(channel := s'.r154.channel)))
      && s'.cfg == s.cfg && s'.r154 == s.r154
  {
  }

  lemma TuneAlike(c: Codes, s: State, t: State, value: uint32, below: Below)
    requires SameBoard(s, t.(r154 := t.r154.(channel := s.r154.channel)))
    requires s.cfg.selected == R154 && s.r154.open == [] && below.tune == 0 && 11 <= value % 0x100 <= 26
    ensures DoneAlike(Execute(c, s, SetChannel, value, below), Execute(c, t, SetChannel, value, below))
  {
    assert Flush154(s, below.batch) == Stepped(s, []) && Flush154(t, below.batch) == Stepped(t, []);
  }

  /** From two boards GET_INFO made alike, a filter and a channel the driver takes erase
      what was left: the boards are the same, and so by TwinsSendAlike is everything they
      send from there on. */
  lemma SetUpErasesHistory(c: Codes, s: State, t: State, filter: seq<byte>, tune: seq<byte>, below: Below)
    requires SameSession(s, t) && s.cfg.selected == R154 && s.r154.open == []
    requires |tune| >= 5 && c.command(tune[0]) == SetChannel
    requires 11 <= Value(tune) % 0x100 <= 26 && below.tune == 0
    ensures var s1 := Handle(c, s, BleFilter, filter, below).s; var t1 := Handle(c, t, BleFilter, filter, below).s;
      Alike(Handle(c, s1, ControlCmd, tune, below), Handle(c, t1, ControlCmd, tune, below))
  {
    FilterAlike(c, s, t, filter, below);
    TuneAlike(c, Handle(c, s, BleFilter, filter, below).s, Handle(c, t, BleFilter, filter, below).s, Value(tune), below);
  }

  /** Everything a board sends over some events. */
  function Sends(c: Codes, s: State, es: seq<Event>): (out: seq<Offered>)
    requires forall e :: e in es ==> Possible(e)
    decreases |es|
  {
    if es == [] then [] else Step(c, s, es[0]).out + Sends(c, Step(c, s, es[0]).s, es[1..])
  }

  lemma {:induction false} SendAlike(c: Codes, s: State, t: State, es: seq<Event>)
    requires SameBoard(s, t) && forall e :: e in es ==> Possible(e)
    ensures Sends(c, s, es) == Sends(c, t, es)
    decreases |es|
  {
    if es != [] {
      StepAlike(c, s, t, es[0]);
      SendAlike(c, Step(c, s, es[0]).s, Step(c, t, es[0]).s, es[1..]);
    }
  }

  /** GET_INFO and its reply. */
  lemma OpensAlike(c: Codes, s: State, t: State, open: seq<byte>, b1: Below, b2: Below)
    requires Reachable(c, s) && Reachable(c, t) && s.ready && t.ready
    requires |open| >= 5 && c.command(open[0]) == GetInfo && b1.reply == b2.reply
    requires b1.stop154 == 0 == b2.stop154
    requires b1.antennaReady && b1.antennaErr == 0 && b2.antennaReady && b2.antennaErr == 0
    ensures var s' := Handle(c, s, ControlCmd, open, b1).s; var t' := Handle(c, t, ControlCmd, open, b2).s;
      SameSession(s', t') && s'.cfg.selected == R154 && s'.r154.open == []
  {
    FreshSession(c, s, t, b1, b2);
  }

  /** A session repeats: two boards, whatever happened to each before, send the same frames
      after GET_INFO, a filter and a channel the driver takes, whatever happens to both from
      there on. The radios must stop and the antenna answer for GET_INFO, and its own reply
      meet the same room at the link. */
  lemma SessionsRepeat(c: Codes, s: State, t: State, open: seq<byte>, b1: Below, b2: Below,
                       filter: seq<byte>, tune: seq<byte>, below: Below, es: seq<Event>)
    requires Reachable(c, s) && Reachable(c, t) && s.ready && t.ready
    requires |open| >= 5 && c.command(open[0]) == GetInfo && b1.reply == b2.reply
    requires b1.stop154 == 0 == b2.stop154
    requires b1.antennaReady && b1.antennaErr == 0 && b2.antennaReady && b2.antennaErr == 0
    requires |tune| >= 5 && c.command(tune[0]) == SetChannel && 11 <= Value(tune) % 0x100 <= 26 && below.tune == 0
    requires forall e :: e in es ==> Possible(e)
    ensures var run := [HostFrame(BleFilter, filter, below), HostFrame(ControlCmd, tune, below)] + es;
      Sends(c, Handle(c, s, ControlCmd, open, b1).s, run) == Sends(c, Handle(c, t, ControlCmd, open, b2).s, run)
  {
    var s0, t0 := Handle(c, s, ControlCmd, open, b1).s, Handle(c, t, ControlCmd, open, b2).s;
    OpensAlike(c, s, t, open, b1, b2);
    SetUpErasesHistory(c, s0, t0, filter, tune, below);
    SetsUp(c, s0, filter, tune, below, es);
    SetsUp(c, t0, filter, tune, below, es);
    var s1, t1 := Handle(c, s0, BleFilter, filter, below).s, Handle(c, t0, BleFilter, filter, below).s;
    SendAlike(c, Handle(c, s1, ControlCmd, tune, below).s, Handle(c, t1, ControlCmd, tune, below).s, es);
  }

  /** What a set-up sends is the answer to its SET_CHANNEL. */
  lemma SetsUp(c: Codes, s: State, filter: seq<byte>, tune: seq<byte>, below: Below, es: seq<Event>)
    requires forall e :: e in es ==> Possible(e)
    ensures var run := [HostFrame(BleFilter, filter, below), HostFrame(ControlCmd, tune, below)] + es;
      var last := Handle(c, Handle(c, s, BleFilter, filter, below).s, ControlCmd, tune, below);
      Sends(c, s, run) == last.out + Sends(c, last.s, es)
  {
    var first, second := HostFrame(BleFilter, filter, below), HostFrame(ControlCmd, tune, below);
    var run := [first, second] + es;
    assert run[1..] == [second] + es && ([second] + es)[1..] == es;
    assert Step(c, s, first).out == [];
  }
}
