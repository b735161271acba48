/** link.c's transmit side in its own form: static state that each thread changes in
    place. Every method is one atomic step of TxModel, so what is proved there over
    all interleavings holds of these methods in any order. */
module TxLink {
  import opened Wire
  import opened Streams
  import opened TxModel

  const EINVAL := 22
  const ENOMEM := 12

  class Link {
    const fmt: Format
    const scratch: array<byte>
    var ring: seq<Cell>
    var claimed: nat
    var txReady: bool
    var txDone: bool
    var dmaBusy: bool
    var pc: Pc
    var encodeLocked: bool
    var staged: seq<Cell>       // the part of scratch the put will copy, past the check
    var owing: nat
    var seqNo: uint16
    var counters: Counters      // frames_sent, bytes_sent, frames_dropped, queued_high_water
    var accepted: seq<Sent>
    var wire: seq<byte>

    ghost predicate Valid()
      reads this
    {
      scratch.Length == HEADER_LEN + MAX_PAYLOAD && |ring| <= TX_RING
    }

    ghost function State(): (s: Tx)
      requires Valid()
      reads this
    {
      Tx(ring, claimed, txReady, txDone, dmaBusy, pc, staged, encodeLocked, owing,
         seqNo, counters, accepted, wire)
    }

    constructor (f: Format)
      ensures Valid() && fmt == f && fresh(scratch) && State() == Init()
    {
      fmt := f;
      scratch := new byte[HEADER_LEN + MAX_PAYLOAD](_ => 0);
      ring, claimed, txReady, txDone, dmaBusy, pc := [], 0, false, true, false, Top;
      encodeLocked, staged, owing := false, [], 0;
      seqNo, counters := 0, Counters(0, 0, 0, 0);
      accepted, wire := [], [];
    }

    /** sn_frame_encode: 0 when the payload is too long for a frame. */
    method FrameEncode(kind: FrameType, payload: seq<byte>) returns (n: nat)
      requires Valid()
      modifies scratch
      ensures n == if |payload| > MAX_PAYLOAD then 0 else HEADER_LEN + |payload|
      ensures n > 0 ==> scratch[..n] == Encode(fmt, fmt.code(kind), seqNo, payload)
    {
      if |payload| > MAX_PAYLOAD {
        return 0;
      }
      var bytes := Encode(fmt, fmt.code(kind), seqNo, payload);
      for i := 0 to |bytes|
        invariant forall k :: 0 <= k < i ==> scratch[k] == bytes[k]
      {
        scratch[i] := bytes[i];
      }
      n := |bytes|;
    }

    /** sn_link_send up to its test for room; the lock is kept when a frame got in. */
    method SendCheck(kind: FrameType, payload: seq<byte>) returns (err: int)
      requires Valid() && !encodeLocked && staged == []
      modifies this, scratch
      ensures Valid()
      ensures State() == CheckStep(fmt, old(State()), kind, payload)
      ensures err == if |payload| > MAX_PAYLOAD then -EINVAL
                     else if Admits(old(State()), kind, payload) then 0 else -ENOMEM
    {
      var n := FrameEncode(kind, payload);
      if n == 0 {
        return -EINVAL;
      }
      var reserve := if CarriesControl(kind) then 0 else CONTROL_RESERVE;
      if TX_RING - |ring| < n + reserve {
        Refuse();
        return -ENOMEM;
      }
      Admit(kind, payload, n);
      err := 0;
    }

    method Refuse()
      requires Valid()
      modifies this`counters
      ensures State() == old(State()).(counters := Counters(old(counters.sent), old(counters.bytes), Add32(old(counters.dropped), 1), old(counters.highWater)))
    {
      counters := counters.(dropped := Add32(counters.dropped, 1));
    }

    /** The admitted frame, which from here only waits to be put. */
    method Admit(kind: FrameType, payload: seq<byte>, n: nat)
      requires Valid() && Admits(State(), kind, payload) && n == HEADER_LEN + |payload|
      requires scratch[..n] == Encode(fmt, fmt.code(kind), seqNo, payload)
      modifies this`encodeLocked, this`staged, this`accepted, this`seqNo
      ensures Valid() && State() == CheckStep(fmt, old(State()), kind, payload)
    {
      ghost var s := State();
      var cells := Cells(scratch[..n], CarriesControl(kind));
      Stage(cells, AnyFrame.Sent(fmt.code(kind), seqNo, payload));
      AdmittedIs(fmt, s, kind, payload, cells);
    }

    /** The lock kept on it, and seq++. */
    method Stage(cells: seq<Cell>, sent: Sent)
      requires Valid()
      modifies this`encodeLocked, this`staged, this`accepted, this`seqNo
      ensures var s := old(State());
        State() == s.(locked := true, putting := cells, seqNo := (s.seqNo + 1) % 0x1_0000, accepted := s.accepted + [sent])
    {
      encodeLocked, staged, accepted := true, cells, accepted + [sent];
      seqNo := (seqNo + 1) % 0x1_0000;
    }

    /** The put and the counters, up to the unlock. */
    method SendPut()
      requires Valid() && encodeLocked
      modifies this
      ensures Valid()
      ensures State() == PutStep(old(State()))
    {
      var room := TX_RING - |ring|;
      var fits := if |staged| <= room then |staged| else room;
      ring := ring + staged[..fits];
      var queued := |ring| - claimed;
      var peak := if queued > counters.highWater then queued else counters.highWater;
      counters := Counters(Add32(counters.sent, 1), Add32(counters.bytes, |staged|), counters.dropped, peak);
      staged, encodeLocked, owing := [], false, owing + 1;
    }

    /** k_sem_give(&tx_ready), after the unlock. */
    method SendGive()
      requires Valid() && owing > 0
      modifies this`txReady, this`owing
      ensures Valid() && State() == Step(fmt, old(State()), Give)
    {
      txReady, owing := true, owing - 1;
    }

    /** ring_buf_get_claim; how much of the ring is contiguous is the ring's affair. */
    method TxClaim(n: nat)
      requires Valid() && Enabled(State(), Claim(n))
      modifies this`pc, this`claimed
      ensures Valid() && State() == Step(fmt, old(State()), Claim(n))
    {
      claimed := n;
      if n == 0 {
        pc := SawEmpty;
      } else {
        pc := Claimed(n);
      }
    }

    method TxWaitReady()
      requires Valid() && Enabled(State(), Wait)
      modifies this`pc, this`txReady
      ensures Valid() && State() == Step(fmt, old(State()), Wait)
    {
      txReady, pc := false, Top;
    }

    method TxTakeDone()
      requires Valid() && Enabled(State(), TakeDone)
      modifies this`pc, this`txDone
      ensures Valid() && State() == Step(fmt, old(State()), TakeDone)
    {
      txDone, pc := false, Starting(pc.n);
    }

    /** uart_tx, and the retry path when it would not start. */
    method TxStart(ok: bool)
      requires Valid() && Enabled(State(), Start(ok))
      modifies this`pc, this`txDone, this`dmaBusy, this`claimed
      ensures Valid() && State() == Step(fmt, old(State()), Start(ok))
    {
      if !ok {
        txDone, claimed, pc := true, 0, Top;
        return;
      }
      dmaBusy, pc := true, Sending(pc.n);
    }

    /** uart_cb on UART_TX_DONE or UART_TX_ABORTED. */
    method UartDone()
      requires Valid() && Enabled(State(), Complete)
      modifies this`txDone, this`dmaBusy, this`wire
      ensures Valid() && State() == Step(fmt, old(State()), Complete)
    {
      wire := wire + Data(ring[..claimed]);
      dmaBusy, txDone := false, true;
    }

    method TxTakeDoneAgain()
      requires Valid() && Enabled(State(), TakeDoneAgain)
      modifies this`pc, this`txDone
      ensures Valid() && State() == Step(fmt, old(State()), TakeDoneAgain)
    {
      txDone, pc := false, Finishing(pc.n);
    }

    /** k_sem_give(&tx_done) and ring_buf_get_finish. */
    method TxFinish()
      requires Valid() && Enabled(State(), Finish)
      modifies this`pc, this`txDone, this`ring, this`claimed
      ensures Valid() && State() == Step(fmt, old(State()), Finish)
    {
      txDone := true;
      ring, claimed, pc := ring[pc.n..], 0, Top;
    }

    method ResetLinkCounters()
      requires Valid()
      modifies this`counters
      ensures Valid() && State() == Step(fmt, old(State()), ResetCounters)
    {
      counters := Counters(0, 0, 0, 0);
    }

    /** sn_link_send as its caller sees it: one frame stored whole, or nothing. */
    method Send(kind: FrameType, payload: seq<byte>) returns (err: int)
      requires Valid() && !encodeLocked && staged == [] && Inv(fmt, State())
      modifies this, scratch
      ensures Valid() && !encodeLocked && staged == [] && Inv(fmt, State())
      ensures err == if |payload| > MAX_PAYLOAD then -EINVAL
                     else if Admits(old(State()), kind, payload) then 0 else -ENOMEM
      ensures err == 0 ==>
        && ring == old(ring) + Cells(Encode(fmt, fmt.code(kind), old(seqNo), payload), CarriesControl(kind))
        && accepted == old(accepted) + [AnyFrame.Sent(fmt.code(kind), old(seqNo), payload)]
        && txReady
      ensures err != 0 ==> ring == old(ring) && accepted == old(accepted) && seqNo == old(seqNo)
    {
      ghost var s := State();
      CheckKeeps(fmt, s, kind, payload);
      err := SendCheck(kind, payload);
      if err == 0 {
        PutKeeps(fmt, State());
        SendPut();
        StepKeeps(fmt, State(), Give);
        SendGive();
      }
    }
  }

  lemma AdmittedIs(f: Format, s: Tx, kind: FrameType, payload: seq<byte>, cells: seq<Cell>)
    requires Admits(s, kind, payload)
    requires cells == Cells(Encode(f, f.code(kind), s.seqNo, payload), CarriesControl(kind))
    ensures CheckStep(f, s, kind, payload) ==
      s.(locked := true, putting := cells, seqNo := (s.seqNo + 1) % 0x1_0000,
         accepted := s.accepted + [AnyFrame.Sent(f.code(kind), s.seqNo, payload)])
  {
  }
}
