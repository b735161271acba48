/** The outbound half of link.c as interleaved steps: any number of senders, the
    thread that feeds the DMA, and the UART callback.

    A Step is the text between two points where another thread can run. The ring,
    the semaphores and the mutex are Zephyr's; their small contracts are in Step. */
module TxModel {
  import opened Wire
  import opened Streams

  const TX_RING := 8192
  const CONTROL_RESERVE := 512
  const TX_CHUNK := 64

  predicate CarriesControl(t: FrameType) {
    t == ControlReply || t == Stats || t == LinkStatus || t == Heartbeat
  }

  /** One byte in the ring, and whether the frame it belongs to carries control. */
  datatype Cell = Cell(b: byte, control: bool)

  /** Where the TX thread is. `Starting` to `Finishing` carry the claimed length. */
  datatype Pc =
    | Top                  // about to claim
    | SawEmpty             // claimed nothing, about to wait for tx_ready
    | Claimed(n: nat)      // about to take tx_done
    | Starting(n: nat)     // about to call uart_tx
    | Sending(n: nat)      // waiting for the DMA's tx_done
    | Finishing(n: nat)    // took it, about to give it back and release the span

  /** frames_sent, bytes_sent, frames_dropped and queued_high_water. */
  datatype Counters = Counters(sent: uint32, bytes: uint32, dropped: uint32, highWater: nat)

  datatype Tx = Tx(
    ring: seq<Cell>,          // bytes not yet released, oldest first
    claimed: nat,             // how many of them the TX thread holds
    ready: bool,              // tx_ready
    done: bool,               // tx_done
    dma: bool,                // the UART is reading the claimed span
    pc: Pc,
    putting: seq<Cell>,       // the frame of the sender past its check, if any
    locked: bool,             // encode_lock
    owing: nat,               // senders between their put and their give
    seqNo: uint16,
    counters: Counters,
    accepted: seq<Sent>,      // history: every frame admitted
    wire: seq<byte>)          // history: bytes of completed transfers

  datatype Event =
    | Check(kind: FrameType, payload: seq<byte>)  // lock, encode, test for room
    | Put                                         // ring_buf_put, counters, unlock
    | Give                                        // k_sem_give(&tx_ready)
    | Claim(n: nat)
    | Wait
    | TakeDone
    | Start(ok: bool)                             // uart_tx, and its failure branch
    | Complete                                    // UART_TX_DONE or UART_TX_ABORTED
    | TakeDoneAgain
    | Finish
    | ResetCounters

  function Init(): (s: Tx) {
    Tx([], 0, false, true, false, Top, [], false, 0, 0, Counters(0, 0, 0, 0), [], [])
  }

  function Space(s: Tx): (n: int) {
    TX_RING - |s.ring|
  }

  function Cells(bs: seq<byte>, control: bool): (cs: seq<Cell>)
    ensures |cs| == |bs|
    ensures forall i :: 0 <= i < |cs| ==> cs[i] == Cell(bs[i], control)
  {
    seq(|bs|, i requires 0 <= i < |bs| => Cell(bs[i], control))
  }

  function Encoded(f: Format, s: Tx, kind: FrameType, payload: seq<byte>): (x: Sent)
    requires |payload| <= MAX_PAYLOAD
  {
    AnyFrame.Sent(f.code(kind), s.seqNo, payload)
  }

  /** Whether the check in sn_link_send lets a frame in. */
  predicate Admits(s: Tx, kind: FrameType, payload: seq<byte>) {
    && |payload| <= MAX_PAYLOAD
    && Space(s) >= HEADER_LEN + |payload| + (if CarriesControl(kind) then 0 else CONTROL_RESERVE)
  }

  function CheckStep(f: Format, s: Tx, kind: FrameType, payload: seq<byte>): (r: Tx) {
    if |payload| > MAX_PAYLOAD then s
    else if !Admits(s, kind, payload) then
      s.(counters := s.counters.(dropped := Add32(s.counters.dropped, 1)))
    else
      var x := Encoded(f, s, kind, payload);
      s.(locked := true, putting := Cells(Bytes(f, x), CarriesControl(kind)),
         seqNo := (s.seqNo + 1) % 0x1_0000, accepted := s.accepted + [x])
  }

  /** ring_buf_put stores as much as there is room for. */
  function PutStep(s: Tx): (r: Tx)
    requires |s.ring| <= TX_RING
  {
    var fits := if |s.putting| <= Space(s) then |s.putting| else Space(s);
    var ring := s.ring + s.putting[..fits];
    var queued := |ring| - s.claimed;
    var c := s.counters;
    s.(ring := ring, putting := [], locked := false, owing := s.owing + 1,
       counters := Counters(Add32(c.sent, 1), Add32(c.bytes, |s.putting|), c.dropped,
                            if queued > c.highWater then queued else c.highWater))
  }

  function Data(cs: seq<Cell>): (bs: seq<byte>)
    ensures |bs| == |cs|
    ensures forall i :: 0 <= i < |cs| ==> bs[i] == cs[i].b
  {
    seq(|cs|, i requires 0 <= i < |cs| => cs[i].b)
  }

  /** Whether an event can happen here. */
  predicate Enabled(s: Tx, e: Event) {
    match e
    case Check(_, _) => !s.locked
    case Put => s.locked && |s.ring| <= TX_RING
    case Give => s.owing > 0
    case Claim(n) => s.pc == Top && n <= |s.ring| && n <= TX_CHUNK && (n == 0 <==> s.ring == [])
    case Wait => s.pc == SawEmpty && s.ready
    case TakeDone => s.pc.Claimed? && s.done
    case Start(_) => s.pc.Starting?
    case Complete => s.dma && s.claimed <= |s.ring|
    case TakeDoneAgain => s.pc.Sending? && s.done
    case Finish => s.pc.Finishing? && s.pc.n <= |s.ring|
    case ResetCounters => true
  }

  function Step(f: Format, s: Tx, e: Event): (r: Tx)
    requires Enabled(s, e)
  {
    match e
    case Check(kind, payload) => CheckStep(f, s, kind, payload)
    case Put => PutStep(s)
    case Give => s.(ready := true, owing := s.owing - 1)
    case Claim(n) => if n == 0 then s.(pc := SawEmpty, claimed := 0) else s.(pc := Claimed(n), claimed := n)
    case Wait => s.(ready := false, pc := Top)
    case TakeDone => s.(done := false, pc := Starting(s.pc.n))
    case Start(ok) => if ok then s.(dma := true, pc := Sending(s.pc.n)) else s.(done := true, claimed := 0, pc := Top)
    case Complete => s.(dma := false, done := true, wire := s.wire + Data(s.ring[..s.claimed]))
    case TakeDoneAgain => s.(done := false, pc := Finishing(s.pc.n))
    case Finish => s.(done := true, ring := s.ring[s.pc.n..], claimed := 0, pc := Top)
    case ResetCounters => s.(counters := Counters(0, 0, 0, 0))
  }

  ghost predicate IsRun(f: Format, s: Tx, es: seq<Event>)
    decreases |es|
  {
    es != [] ==> Enabled(s, es[0]) && IsRun(f, Step(f, s, es[0]), es[1..])
  }

  ghost function Run(f: Format, s: Tx, es: seq<Event>): (r: Tx)
    requires IsRun(f, s, es)
    decreases |es|
  {
    if es == [] then s else Run(f, Step(f, s, es[0]), es[1..])
  }

  // ---- what holds in every reachable state ----

  /** Bytes whose transfer completed but whose span is not yet released. */
  function Unreleased(s: Tx): (n: nat) {
    if (s.pc.Sending? && !s.dma) || s.pc.Finishing? then s.pc.n else 0
  }

  /** The TX thread, the two semaphores and the DMA agree. */
  ghost predicate Handshake(s: Tx) {
    && s.claimed <= |s.ring| <= TX_RING
    && (s.dma ==> s.pc.Sending?)
    && (s.pc.Top? || s.pc.SawEmpty? ==> s.claimed == 0 && s.done)
    && (s.pc.Claimed? ==> s.done)
    && (s.pc.Starting? ==> !s.done)
    && (s.pc.Sending? ==> s.done == !s.dma)
    && (s.pc.Finishing? ==> !s.done)
    && (s.pc.Claimed? || s.pc.Starting? || s.pc.Sending? || s.pc.Finishing? ==>
          1 <= s.pc.n == s.claimed <= TX_CHUNK)
  }

  /** Everything admitted is on the wire, in the ring or in the sender's hands, once
      and in order. */
  ghost predicate InOrder(f: Format, s: Tx) {
    && Unreleased(s) <= |s.ring|
    && s.wire + Data(s.ring[Unreleased(s)..]) + Data(s.putting) == Stream(f, s.accepted)
  }

  /** No wakeup is lost. */
  ghost predicate Awake(s: Tx) {
    s.pc == SawEmpty && s.ring != [] ==> s.ready || s.owing > 0
  }

  function Plain(cs: seq<Cell>): (n: nat)
    ensures n <= |cs|
  {
    if cs == [] then 0 else (if cs[0].control then 0 else 1) + Plain(cs[1..])
  }

  /** Data and logs leave the reserve alone, the frame about to be put included, and
      that frame fits whole. */
  ghost predicate Reserved(s: Tx) {
    && |s.ring| + |s.putting| <= TX_RING
    && Plain(s.ring) + Plain(s.putting) <= TX_RING - CONTROL_RESERVE
    && (!s.locked ==> s.putting == [])
  }

  ghost predicate Numbered(s: Tx) {
    && s.seqNo == |s.accepted| % 0x1_0000
    && forall k :: 0 <= k < |s.accepted| ==> s.accepted[k].seqNo == k % 0x1_0000
  }

  ghost predicate Inv(f: Format, s: Tx) {
    Handshake(s) && InOrder(f, s) && Awake(s) && Reserved(s) && Numbered(s)
  }

  // ---- and why ----

  lemma DataAppend(a: seq<Cell>, b: seq<Cell>)
    ensures Data(a + b) == Data(a) + Data(b)
  {
  }

  lemma {:induction false} PlainAppend(a: seq<Cell>, b: seq<Cell>)
    ensures Plain(a + b) == Plain(a) + Plain(b)
    decreases |a|
  {
    if a == [] {
      assert a + b == b;
    } else {
      assert (a + b)[1..] == a[1..] + b;
      PlainAppend(a[1..], b);
    }
  }

  lemma {:induction false} PlainOfCells(bs: seq<byte>, control: bool)
    ensures Plain(Cells(bs, control)) == if control then 0 else |bs|
    decreases |bs|
  {
    if bs != [] {
      assert Cells(bs, control)[1..] == Cells(bs[1..], control);
      PlainOfCells(bs[1..], control);
    }
  }

  lemma InitHolds(f: Format)
    ensures Inv(f, Init())
  {
  }

  lemma CheckOrders(f: Format, s: Tx, kind: FrameType, payload: seq<byte>)
    requires InOrder(f, s) && Admits(s, kind, payload) && s.putting == []
    ensures InOrder(f, CheckStep(f, s, kind, payload))
  {
    var x := Encoded(f, s, kind, payload);
    var r := CheckStep(f, s, kind, payload);
    StreamSnoc(f, s.accepted, x);
    assert Data(r.putting) == Bytes(f, x);
    var before := s.wire + Data(s.ring[Unreleased(s)..]);
    assert before + Data(s.putting) == before;
  }

  lemma NextNumber(n: nat)
    ensures (n % 0x1_0000 + 1) % 0x1_0000 == (n + 1) % 0x1_0000
  {
  }

  lemma NumberedSnoc(xs: seq<Sent>, x: Sent)
    requires forall k :: 0 <= k < |xs| ==> xs[k].seqNo == k % 0x1_0000
    requires x.seqNo == |xs| % 0x1_0000
    ensures forall k :: 0 <= k < |xs + [x]| ==> (xs + [x])[k].seqNo == k % 0x1_0000
  {
  }

  lemma CheckNumbers(f: Format, s: Tx, kind: FrameType, payload: seq<byte>)
    requires Numbered(s) && Admits(s, kind, payload)
    ensures Numbered(CheckStep(f, s, kind, payload))
  {
    NextNumber(|s.accepted|);
    NumberedSnoc(s.accepted, Encoded(f, s, kind, payload));
  }

  lemma CheckReserves(f: Format, s: Tx, kind: FrameType, payload: seq<byte>)
    requires Reserved(s) && Admits(s, kind, payload) && s.putting == []
    ensures Reserved(CheckStep(f, s, kind, payload))
  {
    PlainOfCells(Bytes(f, Encoded(f, s, kind, payload)), CarriesControl(kind));
  }

  lemma CheckKeeps(f: Format, s: Tx, kind: FrameType, payload: seq<byte>)
    requires Inv(f, s) && !s.locked
    ensures Inv(f, CheckStep(f, s, kind, payload))
  {
    if Admits(s, kind, payload) {
      CheckOrders(f, s, kind, payload);
      CheckNumbers(f, s, kind, payload);
      CheckReserves(f, s, kind, payload);
    }
  }

  lemma PutStores(s: Tx)
    requires Reserved(s)
    ensures PutStep(s).ring == s.ring + s.putting
    ensures Reserved(PutStep(s))
  {
    assert s.putting[..|s.putting|] == s.putting;
    PlainAppend(s.ring, s.putting);
  }

  lemma PutOrders(f: Format, s: Tx)
    requires InOrder(f, s) && Reserved(s)
    ensures InOrder(f, PutStep(s))
  {
    PutStores(s);
    var u := Unreleased(s);
    assert (s.ring + s.putting)[u..] == s.ring[u..] + s.putting;
    DataAppend(s.ring[u..], s.putting);
    assert s.wire + (Data(s.ring[u..]) + Data(s.putting)) + [] == s.wire + Data(s.ring[u..]) + Data(s.putting);
  }

  lemma PutKeeps(f: Format, s: Tx)
    requires Inv(f, s) && s.locked
    ensures Inv(f, PutStep(s))
    ensures PutStep(s).ring == s.ring + s.putting
  {
    PutStores(s);
    PutOrders(f, s);
  }

  lemma CompleteKeeps(f: Format, s: Tx)
    requires Inv(f, s) && Enabled(s, Complete)
    ensures Inv(f, Step(f, s, Complete))
  {
    var n := s.claimed;
    assert s.ring[0..] == s.ring == s.ring[..n] + s.ring[n..];
    DataAppend(s.ring[..n], s.ring[n..]);
    Reassociate(s.wire, Data(s.ring[..n]), Data(s.ring[n..]), Data(s.putting));
  }

  lemma Reassociate(a: seq<byte>, b: seq<byte>, c: seq<byte>, d: seq<byte>)
    ensures a + (b + c) + d == (a + b) + c + d
  {
    assert a + (b + c) == (a + b) + c;
  }

  lemma FinishKeeps(f: Format, s: Tx)
    requires Inv(f, s) && Enabled(s, Finish)
    ensures Inv(f, Step(f, s, Finish))
  {
    var r := Step(f, s, Finish);
    var n := s.pc.n;
    assert r.ring[0..] == s.ring[n..];
    assert s.ring == s.ring[..n] + s.ring[n..];
    PlainAppend(s.ring[..n], s.ring[n..]);
  }

  /** What does not touch the bytes keeps what is said about them. */
  lemma SameBytes(f: Format, s: Tx, r: Tx)
    requires InOrder(f, s) && Reserved(s) && Numbered(s) && Unreleased(r) == Unreleased(s)
    requires r.ring == s.ring && r.putting == s.putting && r.wire == s.wire
    requires r.accepted == s.accepted && r.seqNo == s.seqNo && r.locked == s.locked
    ensures InOrder(f, r) && Reserved(r) && Numbered(r)
  {
  }

  ghost predicate Signals(e: Event) {
    !e.Check? && !e.Put? && !e.Complete? && !e.Finish?
  }

  lemma SignalShakes(f: Format, s: Tx, e: Event)
    requires Handshake(s) && Awake(s) && Enabled(s, e) && Signals(e)
    ensures Handshake(Step(f, s, e)) && Awake(Step(f, s, e))
  {
  }

  lemma SignalTouchesNothing(f: Format, s: Tx, e: Event)
    requires Handshake(s) && Enabled(s, e) && Signals(e)
    ensures var r := Step(f, s, e);
      && r.ring == s.ring && r.putting == s.putting && r.wire == s.wire && r.accepted == s.accepted
      && r.seqNo == s.seqNo && r.locked == s.locked && Unreleased(r) == Unreleased(s)
  {
  }

  lemma SignalKeeps(f: Format, s: Tx, e: Event)
    requires Inv(f, s) && Enabled(s, e) && Signals(e)
    ensures Inv(f, Step(f, s, e))
  {
    SignalShakes(f, s, e);
    SignalTouchesNothing(f, s, e);
    SameBytes(f, s, Step(f, s, e));
  }

  /** Every step keeps the invariant. */
  lemma StepKeeps(f: Format, s: Tx, e: Event)
    requires Inv(f, s) && Enabled(s, e)
    ensures Inv(f, Step(f, s, e))
  {
    match e
    case Check(kind, payload) => CheckKeeps(f, s, kind, payload);
    case Put => PutKeeps(f, s);
    case Complete => CompleteKeeps(f, s);
    case Finish => FinishKeeps(f, s);
    case _ => SignalKeeps(f, s, e);
  }

  /** Over every interleaving. */
  lemma {:induction false} RunKeeps(f: Format, s: Tx, es: seq<Event>)
    requires Inv(f, s) && IsRun(f, s, es)
    ensures Inv(f, Run(f, s, es))
    decreases |es|
  {
    if es != [] {
      StepKeeps(f, s, es[0]);
      RunKeeps(f, Step(f, s, es[0]), es[1..]);
    }
  }
}
