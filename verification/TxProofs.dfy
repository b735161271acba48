/** What the transmit pipeline promises over every run from boot. */
module TxProofs {
  import opened Wire
  import opened Parser
  import opened Streams
  import opened TxModel

  /** A state some interleaving reaches. */
  ghost predicate Reachable(f: Format, s: Tx) {
    exists es :: IsRun(f, Init(), es) && Run(f, Init(), es) == s
  }

  lemma ReachableInv(f: Format, s: Tx)
    requires Reachable(f, s)
    ensures Inv(f, s)
  {
    var es :| IsRun(f, Init(), es) && Run(f, Init(), es) == s;
    InitHolds(f);
    RunKeeps(f, Init(), es);
  }

  lemma WireInv(f: Format, s: Tx)
    requires Inv(f, s)
    ensures s.wire <= Stream(f, s.accepted)
    ensures s.ring == [] && !s.locked ==> s.wire == Stream(f, s.accepted)
  {
    var rest := Data(s.ring[Unreleased(s)..]);
    assert s.wire + rest + Data(s.putting) == s.wire + (rest + Data(s.putting));
    if s.ring == [] && !s.locked {
      assert rest == [] && Data(s.putting) == [];
      assert s.wire + [] + [] == s.wire;
    }
  }

  lemma WireParses(f: Format, s: Tx)
    requires Inv(f, s)
    ensures Parse(f, s.wire).frames <= Frames(s.accepted)
    ensures s.ring == [] && !s.locked ==> Parse(f, s.wire) == Parsed(Frames(s.accepted), [])
  {
    WireInv(f, s);
    PrefixGivesPrefix(f, s.accepted, s.wire);
    ParseWhole(f, s.accepted);
  }

  /** Completed transfers carry a prefix of the accepted frames: nothing lost, repeated
      or reordered, failed starts included. Once nothing is queued they carry it all. */
  lemma WireIsPrefix(f: Format, s: Tx)
    requires Reachable(f, s)
    ensures s.wire <= Stream(f, s.accepted)
    ensures s.ring == [] && !s.locked ==> s.wire == Stream(f, s.accepted)
  {
    ReachableInv(f, s);
    WireInv(f, s);
  }

  /** While the UART reads a span, no step by anyone releases or changes it; at most 64 bytes
      at a time, which the bridge behind the UART can take without a breath. */
  lemma SpanIsHeld(f: Format, s: Tx, e: Event)
    requires Reachable(f, s) && s.dma && Enabled(s, e)
    ensures 1 <= s.claimed <= 64
    ensures s.claimed <= |s.ring| && s.claimed <= |Step(f, s, e).ring|
    ensures Step(f, s, e).ring[..s.claimed] == s.ring[..s.claimed]
    ensures e != Finish
    ensures e == Complete || Step(f, s, e).dma
  {
    ReachableInv(f, s);
    if e == Put {
      PutKeeps(f, s);
    }
  }

  /** A TX thread about to sleep on a non-empty ring has a wakeup coming. */
  lemma NoLostWakeup(f: Format, s: Tx)
    requires Reachable(f, s) && s.ring != [] && s.pc == SawEmpty
    ensures s.ready || s.owing > 0
    ensures Enabled(s, Wait) || Enabled(s, Give)
  {
    ReachableInv(f, s);
  }

  /** Bytes in the ring that belong to control frames. */
  function ControlQueued(s: Tx): (n: nat) {
    |s.ring| - Plain(s.ring)
  }

  /** Queued data and logs never reach into the reserve, so a control frame that fits
      in 512 bytes beside the control bytes still queued is always admitted. */
  lemma ControlReserve(f: Format, s: Tx, kind: FrameType, payload: seq<byte>)
    requires Reachable(f, s)
    ensures Plain(s.ring) <= 7680
    ensures CarriesControl(kind) && HEADER_LEN + |payload| + ControlQueued(s) <= 512 ==> Admits(s, kind, payload)
  {
    ReachableInv(f, s);
  }

  /** The check holds until the put: whatever the consumer does in between, the whole
      frame is stored and not a byte of it is dropped. */
  lemma PutStoresWhole(f: Format, s: Tx)
    requires Reachable(f, s) && s.locked
    ensures Enabled(s, Put)
    ensures Step(f, s, Put).ring == s.ring + s.putting
  {
    ReachableInv(f, s);
    PutKeeps(f, s);
  }

  /** Admission numbers the frame with the count of frames admitted before it; a refusal
      changes the drop counter and nothing else. */
  lemma NumberedInOrder(f: Format, s: Tx, kind: FrameType, payload: seq<byte>)
    requires Reachable(f, s) && !s.locked && |payload| <= MAX_PAYLOAD
    ensures var r := Step(f, s, Check(kind, payload));
      if Admits(s, kind, payload)
      then r.accepted == s.accepted + [AnyFrame.Sent(f.code(kind), |s.accepted| % 0x1_0000, payload)]
           && r.seqNo == |r.accepted| % 0x1_0000
      else r == s.(counters := s.counters.(dropped := Add32(s.counters.dropped, 1)))
  {
    ReachableInv(f, s);
  }

  /** A host reading the wire sees exactly a prefix of the accepted frames, and all of
      them once the ring has drained. */
  lemma HostSees(f: Format, s: Tx)
    requires Reachable(f, s)
    ensures Parse(f, s.wire).frames <= Frames(s.accepted)
    ensures s.ring == [] && !s.locked ==> Parse(f, s.wire) == Parsed(Frames(s.accepted), [])
  {
    ReachableInv(f, s);
    WireParses(f, s);
  }

  // ---- delivery ----

  /** Steps that neither admit a frame nor fail to start a transfer. */
  predicate Quiet(e: Event) {
    !e.Check? && !e.ResetCounters? && e != Start(false)
  }

  function Rank(s: Tx): (n: nat) {
    match s.pc
    case Top => 6
    case SawEmpty => 5
    case Claimed(_) => 5
    case Starting(_) => 4
    case Sending(_) => if s.dma then 3 else 2
    case Finishing(_) => 1
  }

  /** How many quiet steps can still happen. */
  function Work(s: Tx): (n: nat) {
    20 * (|s.ring| + |s.putting|) + (if s.locked then 4 else 0) + 3 * s.owing + (if s.ready then 2 else 0) + Rank(s)
  }

  lemma PutDecreases(f: Format, s: Tx)
    requires Inv(f, s) && s.locked
    ensures Work(PutStep(s)) < Work(s)
  {
    PutStores(s);
  }

  lemma FinishDecreases(f: Format, s: Tx)
    requires Inv(f, s) && Enabled(s, Finish)
    ensures Work(Step(f, s, Finish)) < Work(s)
  {
    assert |Step(f, s, Finish).ring| == |s.ring| - s.pc.n;
  }

  lemma OtherDecreases(f: Format, s: Tx, e: Event)
    requires Handshake(s) && Enabled(s, e) && Quiet(e) && !e.Put? && !e.Finish?
    ensures Work(Step(f, s, e)) < Work(s)
  {
  }

  lemma QuietDecreases(f: Format, s: Tx, e: Event)
    requires Inv(f, s) && Enabled(s, e) && Quiet(e)
    ensures Work(Step(f, s, e)) < Work(s)
  {
    if e.Put? {
      PutDecreases(f, s);
    } else if e.Finish? {
      FinishDecreases(f, s);
    } else {
      OtherDecreases(f, s, e);
    }
  }

  /** With bytes or a wakeup outstanding, some quiet step is possible: no deadlock. */
  lemma QuietProgress(f: Format, s: Tx) returns (e: Event)
    requires Inv(f, s)
    requires s.ring != [] || s.locked || s.owing > 0
    ensures Quiet(e) && Enabled(s, e)
  {
    if s.locked { return Put; }
    if s.owing > 0 { return Give; }
    match s.pc
    case Top => return Claim(if |s.ring| < TX_CHUNK then |s.ring| else TX_CHUNK);
    case SawEmpty => return Wait;
    case Claimed(_) => return TakeDone;
    case Starting(_) => return Start(true);
    case Sending(_) => return if s.dma then Complete else TakeDoneAgain;
    case Finishing(_) => return Finish;
  }

  /** Once senders stop and the UART starts what it is given, every accepted frame is
      delivered, and within Work(s) steps whatever the interleaving. */
  lemma {:induction false} Delivered(f: Format, s: Tx) returns (es: seq<Event>)
    requires Inv(f, s)
    ensures forall e :: e in es ==> Quiet(e)
    ensures IsRun(f, s, es)
    ensures Run(f, s, es).ring == [] && !Run(f, s, es).locked
    ensures Run(f, s, es).accepted == s.accepted
    decreases Work(s)
  {
    if s.ring == [] && !s.locked && s.owing == 0 {
      es := [];
    } else {
      var e := QuietProgress(f, s);
      StepKeeps(f, s, e);
      QuietDecreases(f, s, e);
      var more := Delivered(f, Step(f, s, e));
      es := [e] + more;
      assert es[1..] == more;
    }
  }

  lemma {:induction false} QuietIsBounded(f: Format, s: Tx, es: seq<Event>)
    requires Inv(f, s) && IsRun(f, s, es) && forall e :: e in es ==> Quiet(e)
    ensures |es| <= Work(s)
    decreases |es|
  {
    if es != [] {
      StepKeeps(f, s, es[0]);
      QuietDecreases(f, s, es[0]);
      QuietIsBounded(f, Step(f, s, es[0]), es[1..]);
    }
  }

  // ---- admission and counters, told from outside ----

  /** Replies, STATS, LINK and heartbeats. */
  predicate IsControl(kind: FrameType) {
    kind == ControlReply || kind == Stats || kind == LinkStatus || kind == Heartbeat
  }

  /** A frame gets in exactly when it is no longer than a frame can be and the 8192 bytes
      of the ring have room for it whole, 512 bytes apart unless it carries control. One
      that does not is counted, if its length was not the reason. */
  lemma AdmittedExactly(f: Format, s: Tx, kind: FrameType, payload: seq<byte>)
    requires Reachable(f, s) && !s.locked
    ensures var r := Step(f, s, Check(kind, payload));
      var fits := 10 + |payload| + (if IsControl(kind) then 0 else 512) <= 8192 - |s.ring|;
      && (|r.accepted| == |s.accepted| + 1 <==> |payload| <= 4096 && fits)
      && (|payload| > 4096 ==> r == s)
      && r.counters.dropped == (if |payload| <= 4096 && !fits then Add32(s.counters.dropped, 1) else s.counters.dropped)
  {
  }

  /** What one put adds: a frame, its bytes, and the mark if the ring was never so full of
      bytes the UART has not claimed. */
  lemma PutIsCounted(f: Format, s: Tx)
    requires Reachable(f, s) && s.locked
    ensures Enabled(s, Put)
    ensures var r := Step(f, s, Put);
      && r.counters.sent == Add32(s.counters.sent, 1) && r.counters.bytes == Add32(s.counters.bytes, |s.putting|)
      && r.counters.dropped == s.counters.dropped
      && r.claimed <= |r.ring|
      && var queued := |r.ring| - r.claimed;
         r.counters.highWater == if queued > s.counters.highWater then queued else s.counters.highWater
  {
    ReachableInv(f, s);
  }

  /** No other step moves the counters but a refusal and a reset. */
  lemma OthersAreNotCounted(f: Format, s: Tx, e: Event)
    requires Enabled(s, e) && !e.Check? && !e.Put? && !e.ResetCounters?
    ensures Step(f, s, e).counters == s.counters
  {
  }

  /** The frames accepted and put, and their bytes. */
  ghost predicate Counted(f: Format, s: Tx) {
    && s.counters.sent == (|s.accepted| - if s.locked then 1 else 0) % 0x1_0000_0000
    && s.counters.bytes == (|Stream(f, s.accepted)| - |s.putting|) % 0x1_0000_0000
    && (s.locked ==> s.accepted != [])
    && |s.putting| <= |Stream(f, s.accepted)|
  }

  lemma CountedCheck(f: Format, s: Tx, kind: FrameType, payload: seq<byte>)
    requires Reserved(s) && Counted(f, s) && !s.locked
    ensures Counted(f, CheckStep(f, s, kind, payload))
  {
    if Admits(s, kind, payload) {
      StreamSnoc(f, s.accepted, Encoded(f, s, kind, payload));
    }
  }

  lemma CountedPut(f: Format, s: Tx)
    requires Counted(f, s) && s.locked && |s.ring| <= TX_RING
    ensures Counted(f, PutStep(s))
  {
    ModAdd(|s.accepted| - 1, 1);
    ModAdd(|Stream(f, s.accepted)| - |s.putting|, |s.putting|);
  }

  lemma CountedSame(f: Format, s: Tx, r: Tx)
    requires Counted(f, s)
    requires r.counters == s.counters && r.accepted == s.accepted && r.putting == s.putting && r.locked == s.locked
    ensures Counted(f, r)
  {
  }

  lemma CountedOther(f: Format, s: Tx, e: Event)
    requires Enabled(s, e) && !e.Check? && !e.Put? && e != ResetCounters
    ensures var r := Step(f, s, e);
      r.counters == s.counters && r.accepted == s.accepted && r.putting == s.putting && r.locked == s.locked
  {
  }

  lemma CountedStep(f: Format, s: Tx, e: Event)
    requires Inv(f, s) && Counted(f, s) && Enabled(s, e) && e != ResetCounters
    ensures Counted(f, Step(f, s, e))
  {
    if e.Check? {
      CountedCheck(f, s, e.kind, e.payload);
    } else if e.Put? {
      CountedPut(f, s);
    } else {
      CountedOther(f, s, e);
      CountedSame(f, s, Step(f, s, e));
    }
  }

  lemma {:induction false} CountedRun(f: Format, s: Tx, es: seq<Event>)
    requires Inv(f, s) && Counted(f, s) && IsRun(f, s, es) && ResetCounters !in es
    ensures Counted(f, Run(f, s, es))
    decreases |es|
  {
    if es != [] {
      assert es == [es[0]] + es[1..];
      StepKeeps(f, s, es[0]);
      CountedStep(f, s, es[0]);
      CountedRun(f, Step(f, s, es[0]), es[1..]);
    }
  }

  /** Over every run from boot in which nothing resets them: frames_sent is the number of
      frames accepted and put and bytes_sent their bytes, headers included, both modulo
      2^32. */
  lemma CountersCount(f: Format, es: seq<Event>, s: Tx)
    requires IsRun(f, Init(), es) && ResetCounters !in es && s == Run(f, Init(), es)
    ensures s.counters.sent == (|s.accepted| - if s.locked then 1 else 0) % 0x1_0000_0000
    ensures s.counters.bytes == (|Stream(f, s.accepted)| - |s.putting|) % 0x1_0000_0000
  {
    InitHolds(f);
    InitCounted(f);
    CountedRun(f, Init(), es);
  }

  lemma InitCounted(f: Format)
    ensures Counted(f, Init())
  {
  }
}
