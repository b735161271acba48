/** Conservation over whole sessions: where every packet of either radio went, across
    any number of GET_INFO resets, and what the counters say of it. */
module SessionCounts {
  import opened Wire
  import opened Session
  import opened SessionProofs
  import Batcher154
  import BatcherBle
  import B = Batch154
  import L = BatchBle

  // ---- the books ----

  /** A counter is what its total has gained since the last GET_INFO, wrapped. */
  ghost predicate Counts(c: uint32, now: nat, base: nat) {
    base <= now && c == (now - base) % 0x1_0000_0000
  }

  lemma CountsUp(c: uint32, now: nat, base: nat, n: nat)
    requires Counts(c, now, base)
    ensures Counts(Add32(c, n), now + n, base)
  {
    ModAdd(now - base, n);
  }

  datatype Sheet154 = Sheet154(now: Account, base: Account, open: nat, captured: uint32, dropped: uint32)
  datatype SheetBle = SheetBle(now: Account, base: Account, open: nat, counts: BatcherBle.Counters)
  datatype SheetKinds = SheetKinds(now: KindTotals, base: KindTotals, counts: Kinds)

  /** The numbers of a state that conservation is about: the totals, now and at the last
      GET_INFO, the open batches and the counters. */
  datatype Books = Books(r154: Sheet154, ble: SheetBle, kinds: SheetKinds)

  function BooksOf(s: State): (l: Books) {
    Books(Sheet154(s.hist.r154, s.base.r154, |s.r154.open|, s.r154.captured, s.r154.dropped),
          SheetBle(s.hist.ble, s.base.ble, |s.ble.open|, s.ble.counts.(oversized := 0)),
          SheetKinds(s.hist.kinds, s.base.kinds, s.ble.kinds))
  }

  /** Heard is taken, lost and open, now and at the last GET_INFO, when nothing was open;
      frames cost at most 22 bytes and its data for each packet taken. */
  ghost predicate Balanced(now: Account, base: Account, open: nat) {
    && now.heard == now.taken.packets + now.lost + open
    && base.heard == base.taken.packets + base.lost
    && base.taken.packets <= now.taken.packets
    && now.taken.framed <= 22 * now.taken.packets + now.taken.data
  }

  ghost predicate Sound154(l: Sheet154) {
    && Balanced(l.now, l.base, l.open)
    && Counts(l.captured, l.now.heard, l.base.heard) && Counts(l.dropped, l.now.lost, l.base.lost)
  }

  ghost predicate SoundBle(l: SheetBle) {
    && Balanced(l.now, l.base, l.open)
    && Counts(l.counts.captured, l.now.heard, l.base.heard)
    && Counts(l.counts.forwarded, l.now.taken.packets, l.base.taken.packets)
    && Counts(l.counts.dropped, l.now.lost, l.base.lost)
  }

  function Sum(k: KindTotals): (n: nat) {
    k.adv + k.reports + k.synced + k.refused
  }

  /** No packet is counted as two kinds of thing. */
  ghost predicate SoundKinds(l: SheetKinds, ble: SheetBle) {
    && Counts(l.counts.adv, l.now.adv, l.base.adv) && Counts(l.counts.reports, l.now.reports, l.base.reports)
    && Counts(l.counts.synced, l.now.synced, l.base.synced) && Counts(l.counts.refused, l.now.refused, l.base.refused)
    && Sum(l.now) + ble.base.heard <= ble.now.heard + Sum(l.base)
  }

  predicate Settles(a: Account) {
    a.heard == a.taken.packets + a.lost && a.taken.framed <= 22 * a.taken.packets + a.taken.data
  }

  /** Counters zeroed, with these accounts and nothing open. */
  function Opened(a: Account, b: Account, k: KindTotals): (l: Books) {
    Books(Sheet154(a, a, 0, 0, 0), SheetBle(b, b, 0, NoCounts()), SheetKinds(k, k, NoKinds()))
  }

  lemma OpenedSound(a: Account, b: Account, k: KindTotals)
    requires Settles(a) && Settles(b)
    ensures var l := Opened(a, b, k); Sound154(l.r154) && SoundBle(l.ble) && SoundKinds(l.kinds, l.ble)
  {
  }

  lemma NothingSettles()
    ensures exists a :: Settles(a)
  {
    assert Settles(Account(0, Shipped(0, 0, 0), 0));
  }

  ghost function SomeBooks(): (l: Books)
    ensures Sound154(l.r154) && SoundBle(l.ble) && SoundKinds(l.kinds, l.ble)
  {
    NothingSettles();
    var a: Account :| Settles(a);
    var k: KindTotals :| true;
    OpenedSound(a, a, k);
    Opened(a, a, k)
  }

  /** Books that balance. */
  type Ledger = l: Books | Sound154(l.r154) && SoundBle(l.ble) && SoundKinds(l.kinds, l.ble) ghost witness SomeBooks()

  /** `n` packets sent in a frame of `bytes` that holds `data` of theirs. */
  ghost function Paid154(l: Ledger, n: nat, bytes: nat, data: nat, taken: bool): (r: Ledger)
    requires n <= l.r154.open && bytes <= 22 * n + data
  {
    var t := l.r154;
    CountsUp(t.dropped, t.now.lost, t.base.lost, n);
    l.(r154 := t.(now := Settled(t.now, n, bytes, data, taken), open := t.open - n,
                  dropped := if taken then t.dropped else Add32(t.dropped, n)))
  }

  ghost function PaidBle(l: Ledger, n: nat, bytes: nat, data: nat, taken: bool): (r: Ledger)
    requires n <= l.ble.open && bytes <= 22 * n + data
  {
    var t, c := l.ble, l.ble.counts;
    CountsUp(c.forwarded, t.now.taken.packets, t.base.taken.packets, n);
    CountsUp(c.dropped, t.now.lost, t.base.lost, n);
    l.(ble := t.(now := Settled(t.now, n, bytes, data, taken), open := t.open - n,
                 counts := if taken then c.(forwarded := Add32(c.forwarded, n)) else c.(dropped := Add32(c.dropped, n))))
  }

  ghost function Came154(l: Ledger): (r: Ledger) {
    var t := l.r154;
    CountsUp(t.captured, t.now.heard, t.base.heard, 1);
    l.(r154 := t.(now := t.now.(heard := t.now.heard + 1), open := t.open + 1, captured := Add32(t.captured, 1)))
  }

  ghost function CameBle(l: Ledger, kind: Class): (r: Ledger) {
    var t, k := l.ble, l.kinds;
    CountsUp(t.counts.captured, t.now.heard, t.base.heard, 1);
    CountsUp(k.counts.adv, k.now.adv, k.base.adv, 1);
    CountsUp(k.counts.reports, k.now.reports, k.base.reports, 1);
    CountsUp(k.counts.synced, k.now.synced, k.base.synced, 1);
    CountsUp(k.counts.refused, k.now.refused, k.base.refused, 1);
    Books(l.r154,
          t.(now := t.now.(heard := t.now.heard + 1), open := t.open + 1,
             counts := t.counts.(captured := Add32(t.counts.captured, 1))),
          k.(now := AddKind(k.now, kind), counts := CountKind(k.counts, kind)))
  }

  /** GET_INFO: the accounts go on, the counters begin anew. */
  ghost function Anew(l: Ledger): (r: Ledger)
    requires l.r154.open == 0 && l.ble.open == 0
  {
    OpenedSound(l.r154.now, l.ble.now, l.kinds.now);
    Opened(l.r154.now, l.ble.now, l.kinds.now)
  }

  // ---- what each step does to them ----

  lemma Close154Bytes(closed: seq<B.Packet>) returns (bytes: nat, data: nat)
    requires B.WellFormed(closed)
    ensures bytes <= 22 * |closed| + data
    ensures closed != [] ==> bytes == HEADER_LEN + |B.Payload(closed).payload| && data == B.PsduBytes(closed)
  {
    bytes, data := 0, 0;
    if closed != [] {
      B.PayloadBounds(closed);
      bytes, data := HEADER_LEN + |B.Payload(closed).payload|, B.PsduBytes(closed);
    }
  }

  lemma CloseBleBytes(closed: seq<L.Capture>) returns (bytes: nat, data: nat)
    requires L.WellFormed(closed)
    ensures bytes <= 22 * |closed| + data
    ensures closed != [] ==> bytes == HEADER_LEN + |L.Payload(closed).payload| && data == L.PacketBytes(closed)
  {
    bytes, data := 0, 0;
    if closed != [] {
      L.PayloadBounds(closed);
      bytes, data := HEADER_LEN + |L.Payload(closed).payload|, L.PacketBytes(closed);
    }
  }

  /** A batch closed and `open` left, with `l` the books that count both as open. */
  lemma Close154Sound(s: State, l: Ledger, closed: seq<B.Packet>, open: Open154, ring: Ring) returns (r: Ledger)
    requires B.WellFormed(closed)
    requires l == BooksOf(s).(r154 := l.r154) && l.r154 == BooksOf(s).r154.(open := |closed| + |open|)
    ensures var t := Close154(s, closed, ring).s;
      r == BooksOf(t.(r154 := t.r154.(open := open)))
    ensures r.r154.open == |open| && r.ble == l.ble
  {
    var bytes, data := Close154Bytes(closed);
    r := if closed == [] then l else Paid154(l, |closed|, bytes, data, ring.takes);
  }

  lemma Flush154Sound(s: State, l: Ledger, ring: Ring) returns (r: Ledger)
    requires l == BooksOf(s)
    ensures r == BooksOf(Flush154(s, ring).s) && r.r154.open == 0 && r.ble == l.ble
  {
    r := Close154Sound(s, l, s.r154.open, [], ring);
  }

  lemma FlushBleSound(s: State, l: Ledger, ring: Ring) returns (r: Ledger)
    requires l == BooksOf(s)
    ensures r == BooksOf(FlushBle(s, ring).s) && r.ble.open == 0 && r.r154 == l.r154
  {
    var bytes, data := CloseBleBytes(s.ble.open);
    r := if s.ble.open == [] then l else PaidBle(l, l.ble.open, bytes, data, ring.takes);
  }

  lemma HeardSound(s: State, l: Ledger, p: B.Packet, ring: Ring) returns (r: Ledger)
    requires l == BooksOf(s) && |p.psdu| <= B.MAX_PSDU
    ensures r == BooksOf(Heard(s, p, ring).s)
  {
    if !s.r154.running {
      return l;
    }
    var a := B.Add(s.r154.open, p);
    B.AddKeeps(s.r154.open, p);
    assert |a.closed| + |a.open| == l.r154.open + 1;
    r := Close154Sound(Took154(s), Came154(l), a.closed, a.open, ring);
  }

  lemma TallyBooks(s: State, l: Ledger, h4: byte, data: seq<byte>) returns (r: Ledger)
    requires l == BooksOf(s)
    ensures r == BooksOf(Tally(s, h4, data)).(ble := r.ble) && r.ble.open == l.ble.open + 1
    ensures r.ble == BooksOf(Tally(s, h4, data)).ble.(open := r.ble.open)
  {
    r := CameBle(l, ClassOf(h4, data));
  }

  lemma ForwardSound(s: State, l: Ledger, ts: uint64, h4: byte, data: seq<byte>, ring: Ring) returns (r: Ledger)
    requires l == BooksOf(s) && |data| <= 65534
    ensures r == BooksOf(Forward(s, ts, h4, data, ring).s)
  {
    if !Forwarded(s, h4, data) {
      return l;
    }
    var p := L.Captured(ts, h4, data);
    L.CapturedIsSound(ts, h4, data);
    var a := L.Add(s.ble.open, p);
    L.AddKeeps(s.ble.open, p);
    assert |a.closed| + |a.open| == l.ble.open + 1;
    var came := TallyBooks(s, l, h4, data);
    var bytes, size := CloseBleBytes(a.closed);
    r := if a.closed == [] then came else PaidBle(came, |a.closed|, bytes, size, ring.takes);
  }

  lemma Stop154Sound(s: State, l: Ledger, below: Below) returns (r: Ledger)
    requires l == BooksOf(s)
    ensures r == BooksOf(Stop154(s, below).r.s) && r.r154.open == 0 && r.ble == l.ble
  {
    var err := if s.r154.running then below.stop154 else 0;
    r := Flush154Sound(s.(r154 := s.r154.(running := s.r154.running && err != 0)), l, below.batch);
  }

  lemma StopBleSound(s: State, l: Ledger, below: Below) returns (r: Ledger)
    requires l == BooksOf(s)
    ensures r == BooksOf(StopBle(s, below).r.s) && r.r154 == l.r154 && (s.ready ==> r.ble.open == 0)
  {
    r := l;
    if s.ready {
      r := FlushBleSound(Halted(s), l, below.bleBatch);
    }
  }

  lemma StopRadioSound(s: State, l: Ledger, radio: RadioKind, below: Below) returns (r: Ledger)
    requires l == BooksOf(s)
    ensures r == BooksOf(StopRadio(s, radio, below).r.s)
  {
    if radio == RBle {
      r := StopBleSound(s, l, below);
    } else {
      r := Stop154Sound(s, l, below);
    }
  }

  /** GET_INFO starts the counters anew with nothing open: it forgets no packet, and every
      one heard until then was taken or counted lost. */
  lemma FreshBalances(s: State, l: Ledger, below: Below) returns (r: Ledger)
    requires OneRadio(s) && l == BooksOf(s)
    ensures r == BooksOf(Fresh(s, below).s)
    ensures r.r154.open == 0 && r.ble.open == 0 && r.r154.now == r.r154.base && r.ble.now == r.ble.base
    ensures Settles(r.r154.now) && Settles(r.ble.now)
  {
    var a := Stop154(s, below).r.s;
    Stop154Stops(s, below);
    r := Stop154Sound(s, l, below);
    r := StopBleSound(a, r, below);
    r := Anew(r);
  }

  lemma RetunedQuiet(f: Stepped, value: uint32, below: Below)
    ensures BooksOf(Retuned(f, value, below).r.s) == BooksOf(f.s)
  {
  }

  /** A change of settings or of a running flag moves no packet. */
  lemma SettingsQuiet(c: Codes, s: State, command: Command, value: uint32, below: Below)
    requires !Moves(command)
    ensures BooksOf(Execute(c, s, command, value, below).r.s) == BooksOf(s)
  {
  }

  lemma SetRadioSound(c: Codes, s: State, l: Ledger, value: uint32, below: Below) returns (r: Ledger)
    requires l == BooksOf(s)
    ensures r == BooksOf(Execute(c, s, SetRadio, value, below).r.s)
  {
    r := l;
    var wanted := if value == RADIO_BLE then RBle else R154;
    if (value == RADIO_154 || value == RADIO_BLE) && wanted != s.cfg.selected {
      r := StopRadioSound(s, l, s.cfg.selected, below);
    }
  }

  lemma SetChannelSound(c: Codes, s: State, l: Ledger, value: uint32, below: Below) returns (r: Ledger)
    requires l == BooksOf(s)
    ensures r == BooksOf(Execute(c, s, SetChannel, value, below).r.s)
  {
    r := l;
    if s.cfg.selected != RBle {
      r := Flush154Sound(s, l, below.batch);
      RetunedQuiet(Flush154(s, below.batch), value, below);
    }
  }

  lemma ExecuteSound(c: Codes, s: State, l: Ledger, command: Command, value: uint32, below: Below) returns (r: Ledger)
    requires OneRadio(s) && l == BooksOf(s)
    ensures r == BooksOf(Execute(c, s, command, value, below).r.s)
  {
    if command == SetRadio {
      r := SetRadioSound(c, s, l, value, below);
    } else if command == SetChannel {
      r := SetChannelSound(c, s, l, value, below);
    } else if command == Stop {
      r := StopRadioSound(s, l, s.cfg.selected, below);
    } else if command == GetInfo {
      r := FreshBalances(s, l, below);
    } else {
      SettingsQuiet(c, s, command, value, below);
      r := l;
    }
  }

  lemma HostFrameSound(c: Codes, s: State, l: Ledger, kind: FrameType, payload: seq<byte>, below: Below)
    returns (r: Ledger)
    requires OneRadio(s) && l == BooksOf(s)
    ensures r == BooksOf(Handle(c, s, kind, payload, below).s)
  {
    r := l;
    if IsCommand(kind, payload) {
      r := ExecuteSound(c, s, l, c.command(payload[0]), Value(payload), below);
    }
  }

  lemma StepSound(c: Codes, s: State, l: Ledger, e: Event) returns (r: Ledger)
    requires OneRadio(s) && l == BooksOf(s) && Possible(e)
    ensures r == BooksOf(Step(c, s, e).s)
  {
    match e
    case HostFrame(kind, payload, below) => r := HostFrameSound(c, s, l, kind, payload, below);
    case Heard154(ts, lqi, rssi, psdu, ring) =>
      r := HeardSound(s, l, B.Packet(s.r154.channel, ts, lqi, rssi, B.Cut(psdu)), ring);
    case BadFcs => r := l;
    case Linger154(ring) => r := Flush154Sound(s, l, ring);
    case HciPacket(ts, h4, data, ring) => r := ForwardSound(s, l, ts, h4, data, ring);
    case LingerBle(ring) => r := FlushBleSound(s, l, ring);
  }

  lemma NextSound(h: History, l: Ledger, n: nat) returns (r: Ledger)
    requires OneRadio(h.ss[0]) && n < |h.es| && l == BooksOf(h.ss[n])
    ensures r == BooksOf(h.ss[n + 1])
  {
    HistoryKeeps(h, n);
    r := StepSound(h.c, h.ss[n], l, h.es[n]);
  }

  lemma {:induction false} HistorySound(h: History, l: Ledger, n: nat) returns (r: Ledger)
    requires OneRadio(h.ss[0]) && l == BooksOf(h.ss[0]) && n <= |h.es|
    ensures r == BooksOf(h.ss[n])
    decreases n
  {
    r := l;
    if n > 0 {
      r := HistorySound(h, l, n - 1);
      r := NextSound(h, r, n - 1);
    }
  }

  lemma BootOpens(s: State, ready: bool)
    requires s == Boot(ready)
    ensures OneRadio(s) && Settles(s.hist.r154) && Settles(s.hist.ble)
    ensures BooksOf(s) == Opened(s.hist.r154, s.hist.ble, s.hist.kinds)
  {
  }

  lemma BeginsBalanced(h: History) returns (l: Ledger)
    requires FromBoot(h)
    ensures l == BooksOf(h.ss[0]) && OneRadio(h.ss[0])
  {
    var s := h.ss[0];
    var ready :| s == Boot(ready);
    BootOpens(s, ready);
    OpenedSound(s.hist.r154, s.hist.ble, s.hist.kinds);
    l := Opened(s.hist.r154, s.hist.ble, s.hist.kinds);
  }

  /** Every board's books balance. */
  lemma ReachableBalances(c: Codes, s: State) returns (l: Ledger)
    requires Reachable(c, s)
    ensures l == BooksOf(s)
  {
    var h: History :| h.c == c && FromBoot(h) && s == h.ss[|h.es|];
    l := BeginsBalanced(h);
    l := HistorySound(h, l, |h.es|);
  }

  // ---- the results ----

  /** From boot, across every reset of the counters and without their wrap: packets heard
      are packets the link took, packets lost and packets in the open batch, for both
      radios, and the frames that carried the taken ones are together no longer than 22
      bytes and its data for each. */
  lemma SessionConserves(c: Codes, s: State)
    requires Reachable(c, s)
    ensures var h := s.hist;
      && h.r154.heard == h.r154.taken.packets + h.r154.lost + |s.r154.open|
      && h.ble.heard == h.ble.taken.packets + h.ble.lost + |s.ble.open|
      && h.r154.taken.framed <= 22 * h.r154.taken.packets + h.r154.taken.data
      && h.ble.taken.framed <= 22 * h.ble.taken.packets + h.ble.taken.data
  {
    var l := ReachableBalances(c, s);
  }

  /** The counters are those totals less what they were at the last GET_INFO, modulo 2^32. */
  lemma CountersCount(c: Codes, s: State)
    requires Reachable(c, s)
    ensures var h, b := s.hist, s.base;
      && s.r154.captured == (h.r154.heard - b.r154.heard) % 0x1_0000_0000
      && s.r154.dropped == (h.r154.lost - b.r154.lost) % 0x1_0000_0000
      && s.ble.counts.captured == (h.ble.heard - b.ble.heard) % 0x1_0000_0000
      && s.ble.counts.forwarded == (h.ble.taken.packets - b.ble.taken.packets) % 0x1_0000_0000
      && s.ble.counts.dropped == (h.ble.lost - b.ble.lost) % 0x1_0000_0000
  {
    var l := ReachableBalances(c, s);
  }

  /** And what was heard since the last GET_INFO was taken, lost or is open. */
  lemma SinceReset(c: Codes, s: State)
    requires Reachable(c, s)
    ensures var h, b := s.hist, s.base;
      && h.r154.heard - b.r154.heard == (h.r154.taken.packets - b.r154.taken.packets) + (h.r154.lost - b.r154.lost) + |s.r154.open|
      && h.ble.heard - b.ble.heard == (h.ble.taken.packets - b.ble.taken.packets) + (h.ble.lost - b.ble.lost) + |s.ble.open|
  {
    var l := ReachableBalances(c, s);
  }

  lemma Unwrapped(c: uint32, now: nat, base: nat)
    requires Counts(c, now, base) && now - base < 0x1_0000_0000
    ensures c == now - base
  {
  }

  lemma KindsWithin(l: Ledger)
    requires l.ble.now.heard - l.ble.base.heard < 0x1_0000_0000
    ensures var k := l.kinds.counts;
      k.adv + k.reports + k.synced + k.refused <= l.ble.counts.captured
  {
    var k := l.kinds;
    Unwrapped(k.counts.adv, k.now.adv, k.base.adv);
    Unwrapped(k.counts.reports, k.now.reports, k.base.reports);
    Unwrapped(k.counts.synced, k.now.synced, k.base.synced);
    Unwrapped(k.counts.refused, k.now.refused, k.base.refused);
    Unwrapped(l.ble.counts.captured, l.ble.now.heard, l.ble.base.heard);
  }

  /** Before the counters wrap, the kinds of BLE packet never add up to more than all. */
  lemma KindsWithinPackets(c: Codes, s: State)
    requires Reachable(c, s)
    ensures var k := s.ble.kinds;
      var sum: int := k.adv + k.reports + k.synced + k.refused;
      s.hist.ble.heard - s.base.ble.heard < 0x1_0000_0000 ==> sum <= s.ble.counts.captured
  {
    var l := ReachableBalances(c, s);
    if s.hist.ble.heard - s.base.ble.heard < 0x1_0000_0000 {
      KindsWithin(l);
    }
  }
}
