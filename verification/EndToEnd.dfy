/** From a packet heard to a packet decoded: the 802.15.4 batcher, the ring and the DMA
    thread composed, and the host's parser and decoder at the far end. */
module EndToEnd {
  import opened Wire
  import opened Parser
  import opened Streams
  import opened TxModel
  import TxProofs
  import B = Batch154

  /** A batch that closed, and whether the link took its frame. */
  datatype Closed = Closed(packets: seq<B.Packet>, taken: bool)

  datatype Sys = Sys(
    open: seq<B.Packet>,
    dropped: uint32,           // the drop counter of batch.c
    tx: Tx,
    heard: seq<B.Packet>,      // history: every packet added, its PSDU cut to 127
    closed: seq<Closed>)       // history: every batch closed, in order

  datatype Event =
    | Add(p: B.Packet)         // sn_batch_add
    | Flush                    // sn_batch_flush or the linger timer
    | Link(e: TxModel.Event)   // any step of the link, frames of other senders included

  function Init(): (s: Sys) {
    Sys([], 0, TxModel.Init(), [], [])
  }

  function Trim(p: B.Packet): (q: B.Packet) {
    p.(psdu := B.Cut(p.psdu))
  }

  /** Offers the batch to the link, which decides at its check; the put and the give
      follow as steps of the link. */
  function Send(f: Format, s: Sys, batch: seq<B.Packet>): (r: Sys)
    requires B.WellFormed(batch)
  {
    if batch == [] then s
    else
      var o := B.Payload(batch);
      var taken := Admits(s.tx, o.kind, o.payload);
      s.(tx := CheckStep(f, s.tx, o.kind, o.payload),
         dropped := if taken then s.dropped else Add32(s.dropped, |batch|),
         closed := s.closed + [Closed(batch, taken)])
  }

  predicate DataFrame(t: FrameType) {
    t == OnePacket || t == PacketBatch
  }

  predicate Good(s: Sys) {
    B.WellFormed(s.open) && |s.open| < B.MAX_ENTRIES
  }

  predicate Enabled(s: Sys, e: Event)
  {
    && Good(s)
    && match e
       case Add(p) => B.Add(s.open, Trim(p)).closed == [] || !s.tx.locked
       case Flush => s.open == [] || !s.tx.locked
       case Link(te) => TxModel.Enabled(s.tx, te) && (te.Check? ==> !DataFrame(te.kind))
  }

  function Step(f: Format, s: Sys, e: Event): (r: Sys)
    requires Enabled(s, e)
  {
    match e
    case Add(p) =>
      B.AddKeeps(s.open, Trim(p));
      var a := B.Add(s.open, Trim(p));
      Send(f, s, a.closed).(open := a.open, heard := s.heard + [Trim(p)])
    case Flush => Send(f, s, s.open).(open := [])
    case Link(te) => s.(tx := TxModel.Step(f, s.tx, te))
  }

  ghost predicate IsRun(f: Format, s: Sys, es: seq<Event>)
    decreases |es|
  {
    es != [] ==> Enabled(s, es[0]) && IsRun(f, Step(f, s, es[0]), es[1..])
  }

  ghost function Run(f: Format, s: Sys, es: seq<Event>): (r: Sys)
    requires IsRun(f, s, es)
    decreases |es|
  {
    if es == [] then s else Run(f, Step(f, s, es[0]), es[1..])
  }

  // ---- what was closed, and what the host decodes ----

  function All(cs: seq<Closed>): (ps: seq<B.Packet>) {
    if cs == [] then [] else All(cs[..|cs| - 1]) + cs[|cs| - 1].packets
  }

  /** The packets of the batches the link took, in order. */
  function Taken(cs: seq<Closed>): (ps: seq<B.Packet>) {
    if cs == [] then []
    else Taken(cs[..|cs| - 1]) + (if cs[|cs| - 1].taken then cs[|cs| - 1].packets else [])
  }

  /** The packets of the batches it refused. */
  function Lost(cs: seq<Closed>): (ps: seq<B.Packet>) {
    if cs == [] then []
    else Lost(cs[..|cs| - 1]) + (if cs[|cs| - 1].taken then [] else cs[|cs| - 1].packets)
  }

  lemma ClosedSnoc(cs: seq<Closed>, c: Closed)
    ensures All(cs + [c]) == All(cs) + c.packets
    ensures Taken(cs + [c]) == Taken(cs) + (if c.taken then c.packets else [])
    ensures Lost(cs + [c]) == Lost(cs) + (if c.taken then [] else c.packets)
  {
    assert (cs + [c])[..|cs|] == cs;
  }

  /** Packets in one frame, as the host reads it. */
  function FramePackets(f: Format, frame: Frame): (ps: seq<B.Packet>) {
    var r := if frame.kind == f.code(OnePacket) then B.DecodePacket(frame.payload)
             else if frame.kind == f.code(PacketBatch) then B.DecodeBatch(frame.payload)
             else None;
    if r.Some? then r.value else []
  }

  function HostPackets(f: Format, frames: seq<Frame>): (ps: seq<B.Packet>) {
    if frames == [] then []
    else HostPackets(f, frames[..|frames| - 1]) + FramePackets(f, frames[|frames| - 1])
  }

  lemma HostSnoc(f: Format, frames: seq<Frame>, x: Frame)
    ensures HostPackets(f, frames + [x]) == HostPackets(f, frames) + FramePackets(f, x)
  {
    assert (frames + [x])[..|frames|] == frames;
  }

  /** Bytes of the frames that carry packets. */
  function Framed(f: Format, frames: seq<Frame>): (n: nat) {
    if frames == [] then 0
    else
      var x := frames[|frames| - 1];
      Framed(f, frames[..|frames| - 1])
        + (if x.kind == f.code(OnePacket) || x.kind == f.code(PacketBatch) then HEADER_LEN + |x.payload| else 0)
  }

  lemma FramedSnoc(f: Format, frames: seq<Frame>, x: Frame)
    ensures Framed(f, frames + [x]) == Framed(f, frames)
      + (if x.kind == f.code(OnePacket) || x.kind == f.code(PacketBatch) then HEADER_LEN + |x.payload| else 0)
  {
    assert (frames + [x])[..|frames|] == frames;
  }

  /** What the packets would cost sent one to a frame. */
  function Alone(ps: seq<B.Packet>): (n: nat) {
    22 * |ps| + B.PsduBytes(ps)
  }

  lemma {:induction false} HostPrefix(f: Format, part: seq<Frame>, whole: seq<Frame>)
    requires part <= whole
    ensures HostPackets(f, part) <= HostPackets(f, whole)
    decreases |whole|
  {
    if |part| < |whole| {
      HostPrefix(f, part, whole[..|whole| - 1]);
    } else {
      assert part == whole;
    }
  }

  // ---- the invariant ----

  ghost predicate Inv(f: Format, s: Sys) {
    && Good(s) && TxModel.Inv(f, s.tx)
    && s.heard == All(s.closed) + s.open
    && Ledger(f, s.tx.accepted, s.closed, s.dropped)
    && Framed(f, Frames(s.tx.accepted)) <= Alone(Taken(s.closed))
  }

  /** The link's history, the batcher's and the drop counter agree. */
  ghost predicate Ledger(f: Format, accepted: seq<Sent>, closed: seq<Closed>, dropped: uint32) {
    && HostPackets(f, Frames(accepted)) == Taken(closed)
    && dropped == |Lost(closed)| % 0x1_0000_0000
  }

  /** An accepted batch frame adds exactly its packets to what the host will read. */
  lemma BatchArrives(f: Format, batch: seq<B.Packet>, x: Sent)
    requires f.Distinct() && batch != [] && B.WellFormed(batch)
    requires x.kind == f.code(B.Payload(batch).kind) && x.payload == B.Payload(batch).payload
    ensures FramePackets(f, Received(x)) == batch
  {
    B.RoundTrip(batch);
    B.PayloadBounds(batch);
    if |batch| > 1 {
      assert f.code(OnePacket) != f.code(PacketBatch);
    }
  }

  lemma OtherFrame(f: Format, kind: FrameType, x: Sent)
    requires f.Distinct() && !DataFrame(kind) && x.kind == f.code(kind)
    ensures FramePackets(f, Received(x)) == []
  {
    assert f.code(kind) != f.code(OnePacket) && f.code(kind) != f.code(PacketBatch);
  }

  lemma TakenArrives(f: Format, accepted: seq<Sent>, closed: seq<Closed>, dropped: uint32, batch: seq<B.Packet>, x: Sent)
    requires f.Distinct() && batch != [] && B.WellFormed(batch)
    requires x.kind == f.code(B.Payload(batch).kind) && x.payload == B.Payload(batch).payload
    requires Ledger(f, accepted, closed, dropped)
    ensures Ledger(f, accepted + [x], closed + [Closed(batch, true)], dropped)
  {
    ClosedSnoc(closed, Closed(batch, true));
    BatchArrives(f, batch, x);
    StreamSnoc(f, accepted, x);
    HostSnoc(f, Frames(accepted), Received(x));
    assert Lost(closed) + [] == Lost(closed);
  }

  lemma TakenIsThrifty(f: Format, accepted: seq<Sent>, closed: seq<Closed>, batch: seq<B.Packet>, x: Sent)
    requires batch != [] && B.WellFormed(batch)
    requires x.payload == B.Payload(batch).payload
    requires Framed(f, Frames(accepted)) <= Alone(Taken(closed))
    ensures Framed(f, Frames(accepted + [x])) <= Alone(Taken(closed + [Closed(batch, true)]))
  {
    ClosedSnoc(closed, Closed(batch, true));
    StreamSnoc(f, accepted, x);
    FramedSnoc(f, Frames(accepted), Received(x));
    B.PayloadBounds(batch);
    B.PsduAppend(Taken(closed), batch);
  }

  lemma RefusedCounts(f: Format, accepted: seq<Sent>, closed: seq<Closed>, dropped: uint32, batch: seq<B.Packet>)
    requires Ledger(f, accepted, closed, dropped)
    ensures Ledger(f, accepted, closed + [Closed(batch, false)], Add32(dropped, |batch|))
  {
    ClosedSnoc(closed, Closed(batch, false));
    ModAdd(|Lost(closed)|, |batch|);
    assert Taken(closed) + [] == Taken(closed);
  }

  lemma SendBalances(f: Format, s: Sys, batch: seq<B.Packet>)
    requires f.Distinct() && B.WellFormed(batch)
    requires Ledger(f, s.tx.accepted, s.closed, s.dropped)
    requires Framed(f, Frames(s.tx.accepted)) <= Alone(Taken(s.closed))
    ensures var r := Send(f, s, batch);
      && Ledger(f, r.tx.accepted, r.closed, r.dropped)
      && Framed(f, Frames(r.tx.accepted)) <= Alone(Taken(r.closed))
      && All(r.closed) == All(s.closed) + batch
      && r.heard == s.heard
  {
    if batch == [] {
      assert All(s.closed) + [] == All(s.closed);
    } else {
      var o := B.Payload(batch);
      B.PayloadBounds(batch);
      if Admits(s.tx, o.kind, o.payload) {
        var x := Encoded(f, s.tx, o.kind, o.payload);
        TakenArrives(f, s.tx.accepted, s.closed, s.dropped, batch, x);
        TakenIsThrifty(f, s.tx.accepted, s.closed, batch, x);
        ClosedSnoc(s.closed, Closed(batch, true));
      } else {
        RefusedCounts(f, s.tx.accepted, s.closed, s.dropped, batch);
        ClosedSnoc(s.closed, Closed(batch, false));
        assert Taken(s.closed) + [] == Taken(s.closed);
      }
    }
  }

  lemma SendKeeps(f: Format, s: Sys, batch: seq<B.Packet>)
    requires TxModel.Inv(f, s.tx) && B.WellFormed(batch) && (batch == [] || !s.tx.locked)
    ensures TxModel.Inv(f, Send(f, s, batch).tx)
  {
    if batch != [] {
      var o := B.Payload(batch);
      CheckKeeps(f, s.tx, o.kind, o.payload);
    }
  }

  lemma AddKeepsAll(f: Format, s: Sys, p: B.Packet)
    requires f.Distinct() && Inv(f, s) && Enabled(s, Add(p))
    ensures Inv(f, Step(f, s, Add(p)))
  {
    var q := Trim(p);
    var a := B.Add(s.open, q);
    B.AddKeeps(s.open, q);
    SendKeeps(f, s, a.closed);
    SendBalances(f, s, a.closed);
    Regroup(All(s.closed), s.open, [q], a.closed, a.open);
  }

  lemma Regroup(a: seq<B.Packet>, b: seq<B.Packet>, c: seq<B.Packet>, d: seq<B.Packet>, e: seq<B.Packet>)
    requires d + e == b + c
    ensures (a + d) + e == (a + b) + c
  {
    assert (a + d) + e == a + (d + e);
    assert (a + b) + c == a + (b + c);
  }

  lemma FlushKeepsAll(f: Format, s: Sys)
    requires f.Distinct() && Inv(f, s) && Enabled(s, Flush)
    ensures Inv(f, Step(f, s, Flush))
  {
    SendKeeps(f, s, s.open);
    SendBalances(f, s, s.open);
    assert All(s.closed) + s.open == (All(s.closed) + s.open) + [];
  }

  lemma LinkKeepsAll(f: Format, s: Sys, te: TxModel.Event)
    requires f.Distinct() && Inv(f, s) && Enabled(s, Link(te))
    ensures Inv(f, Step(f, s, Link(te)))
  {
    StepKeeps(f, s.tx, te);
    if te.Check? && Admits(s.tx, te.kind, te.payload) {
      OtherFrameUnread(f, s.tx, te.kind, te.payload);
    } else {
      NothingAccepted(f, s.tx, te);
    }
  }

  lemma NothingAccepted(f: Format, s: Tx, te: TxModel.Event)
    requires TxModel.Enabled(s, te) && !(te.Check? && Admits(s, te.kind, te.payload))
    ensures TxModel.Step(f, s, te).accepted == s.accepted
  {
  }

  /** A frame that carries no packet adds nothing to what the host decodes. */
  lemma OtherFrameUnread(f: Format, s: Tx, kind: FrameType, payload: seq<byte>)
    requires f.Distinct() && !DataFrame(kind) && !s.locked && Admits(s, kind, payload)
    ensures var after := Frames(CheckStep(f, s, kind, payload).accepted);
      && HostPackets(f, after) == HostPackets(f, Frames(s.accepted))
      && Framed(f, after) == Framed(f, Frames(s.accepted))
  {
    OtherFrameAdds(f, s.accepted, kind, Encoded(f, s, kind, payload));
  }

  lemma OtherFrameAdds(f: Format, accepted: seq<Sent>, kind: FrameType, x: Sent)
    requires f.Distinct() && !DataFrame(kind) && x.kind == f.code(kind)
    ensures HostPackets(f, Frames(accepted + [x])) == HostPackets(f, Frames(accepted))
    ensures Framed(f, Frames(accepted + [x])) == Framed(f, Frames(accepted))
  {
    var frames := Frames(accepted);
    assert f.code(kind) != f.code(OnePacket) && f.code(kind) != f.code(PacketBatch);
    OtherFrame(f, kind, x);
    StreamSnoc(f, accepted, x);
    FramedSnoc(f, frames, Received(x));
    HostSnoc(f, frames, Received(x));
    assert HostPackets(f, frames) + [] == HostPackets(f, frames);
  }

  lemma StepKeepsAll(f: Format, s: Sys, e: Event)
    requires f.Distinct() && Inv(f, s) && Enabled(s, e)
    ensures Inv(f, Step(f, s, e))
  {
    match e
    case Add(p) => AddKeepsAll(f, s, p);
    case Flush => FlushKeepsAll(f, s);
    case Link(te) => LinkKeepsAll(f, s, te);
  }

  lemma {:induction false} RunKeepsAll(f: Format, s: Sys, es: seq<Event>)
    requires f.Distinct() && Inv(f, s) && IsRun(f, s, es)
    ensures Inv(f, Run(f, s, es))
    decreases |es|
  {
    if es != [] {
      StepKeepsAll(f, s, es[0]);
      RunKeepsAll(f, Step(f, s, es[0]), es[1..]);
    }
  }

  ghost predicate Reachable(f: Format, s: Sys) {
    exists es :: IsRun(f, Init(), es) && Run(f, Init(), es) == s
  }

  lemma ReachableInv(f: Format, s: Sys)
    requires f.Distinct() && Reachable(f, s)
    ensures Inv(f, s)
  {
    var es :| IsRun(f, Init(), es) && Run(f, Init(), es) == s;
    TxModel.InitHolds(f);
    RunKeepsAll(f, Init(), es);
  }

  // ---- the results ----

  /** What the host decodes from the bytes that reached the wire is always a prefix of
      the packets whose frames the ring accepted, every field intact; and once the ring
      has drained it is all of them. */
  lemma HostGetsWhatWasTaken(f: Format, s: Sys)
    requires f.Distinct() && Reachable(f, s)
    ensures HostPackets(f, Parse(f, s.tx.wire).frames) <= Taken(s.closed)
    ensures s.tx.ring == [] && !s.tx.locked ==> HostPackets(f, Parse(f, s.tx.wire).frames) == Taken(s.closed)
  {
    ReachableInv(f, s);
    TxProofs.WireParses(f, s.tx);
    HostPrefix(f, Parse(f, s.tx.wire).frames, Frames(s.tx.accepted));
  }

  /** Conservation: the packets heard are, in order, those of the batches closed and then
      the open ones; each closed batch was taken whole or lost whole, and the drop
      counter is exactly the number of packets lost. */
  lemma Conservation(f: Format, s: Sys)
    requires f.Distinct() && Reachable(f, s)
    ensures s.heard == All(s.closed) + s.open
    ensures |s.heard| == |Taken(s.closed)| + |Lost(s.closed)| + |s.open|
    ensures s.dropped == |Lost(s.closed)| % 0x1_0000_0000
    ensures multiset(s.heard) == multiset(Taken(s.closed)) + multiset(Lost(s.closed)) + multiset(s.open)
  {
    ReachableInv(f, s);
    Splits(s.closed);
  }

  /** Batching never costs: the frames the ring accepted for packets are together no
      longer than one PACKET frame for each of those packets would have been. */
  lemma NeverDearerThanAlone(f: Format, s: Sys)
    requires f.Distinct() && Reachable(f, s)
    ensures Framed(f, Frames(s.tx.accepted)) <= 22 * |Taken(s.closed)| + B.PsduBytes(Taken(s.closed))
  {
    ReachableInv(f, s);
  }

  lemma {:induction false} Splits(cs: seq<Closed>)
    ensures |All(cs)| == |Taken(cs)| + |Lost(cs)|
    ensures multiset(All(cs)) == multiset(Taken(cs)) + multiset(Lost(cs))
    decreases |cs|
  {
    if cs != [] {
      Splits(cs[..|cs| - 1]);
    }
  }
}
