/** Whole runs of the BLE batcher: any sequence of forwarded packets and flushes, any
    answers from the link. Each step is what the methods of BatcherBle are proved to do. */
module BleRun {
  import opened Wire
  import opened BatchBle
  import opened BatcherBle

  /** A call to forward(), or a flush by STOP or the timer; `taken` is the link's answer to
      the frame the call sends, if it sends one. */
  datatype Call =
    | Forward(ts: uint64, h4: byte, data: seq<byte>, taken: bool)
    | Flush(taken: bool)

  predicate Possible(c: Call) {
    c.Forward? ==> |c.data| <= 65534
  }

  type Open = cs: seq<Capture> | WellFormed(cs) && |cs| < BLE_MAX_ENTRIES witness []

  datatype Batch = Batch(open: Open, log: seq<Attempt>, counters: Counters)

  function Init(): (s: Batch) {
    Batch([], [], Counters(0, 0, 0, 0))
  }

  function Step(s: Batch, c: Call): (r: Batch)
    requires Possible(c)
  {
    match c
    case Forward(ts, h4, data, taken) =>
      CapturedIsSound(ts, h4, data);
      AddKeeps(s.open, Captured(ts, h4, data));
      var a := Add(s.open, Captured(ts, h4, data));
      Batch(a.open, Sent(s.log, a.closed, taken), Counted(Taken(s.counters, data), a.closed, taken))
    case Flush(taken) => Batch([], Sent(s.log, s.open, taken), Counted(s.counters, s.open, taken))
  }

  function Run(s: Batch, cs: seq<Call>): (r: Batch)
    requires forall c :: c in cs ==> Possible(c)
    decreases |cs|
  {
    if cs == [] then s else Run(Step(s, cs[0]), cs[1..])
  }

  /** What a call hands over, as it is to reach the host. */
  function Came(c: Call): (ps: seq<Capture>)
    requires Possible(c)
  {
    if c.Forward? then [Captured(c.ts, c.h4, c.data)] else []
  }

  function AllCaptured(cs: seq<Call>): (ps: seq<Capture>)
    requires forall c :: c in cs ==> Possible(c)
  {
    if cs == [] then [] else Came(cs[0]) + AllCaptured(cs[1..])
  }

  function Packets(o: Offer): (ps: seq<Capture>) {
    var d := Decode(o);
    if d.Some? then d.value else []
  }

  /** What frames offered decode to, in order: all, those the link took and those it
      refused; and the bytes of those it took. */
  datatype Tally = Tally(all: seq<Capture>, took: seq<Capture>, lost: seq<Capture>, framed: nat)

  function Plus(t: Tally, ps: seq<Capture>, taken: bool, bytes: nat): (r: Tally) {
    if taken then Tally(t.all + ps, t.took + ps, t.lost, t.framed + bytes)
    else Tally(t.all + ps, t.took, t.lost + ps, t.framed)
  }

  function Decoded(log: seq<Attempt>): (t: Tally) {
    if log == [] then Tally([], [], [], 0)
    else
      var last := log[|log| - 1];
      Plus(Decoded(log[..|log| - 1]), Packets(last.offer), last.taken, HEADER_LEN + |last.offer.payload|)
  }

  /** What the packets would cost sent one to a frame. */
  function Alone(ps: seq<Capture>): (n: nat) {
    22 * |ps| + PacketBytes(ps)
  }

  /** One batch closing: its frame decodes to it, and is no longer than the packets alone. */
  lemma CloseDecodes(log: seq<Attempt>, closed: seq<Capture>, taken: bool) returns (bytes: nat)
    requires WellFormed(closed)
    ensures Decoded(Sent(log, closed, taken)) == Plus(Decoded(log), closed, taken, bytes)
    ensures bytes <= Alone(closed)
  {
    if closed == [] {
      bytes := 0;
      var t := Decoded(log);
      assert t.all + [] == t.all && t.took + [] == t.took && t.lost + [] == t.lost;
    } else {
      RoundTrip(closed);
      PayloadBounds(closed);
      var last := Attempt(Payload(closed), taken);
      assert (log + [last])[..|log|] == log;
      bytes := HEADER_LEN + |Payload(closed).payload|;
    }
  }

  /** `came` is what has come in so far. */
  ghost predicate Sums(t: Tally, open: seq<Capture>, c: Counters, came: seq<Capture>) {
    && t.all + open == came
    && |t.took| + |t.lost| == |t.all|
    && t.framed <= Alone(t.took)
    && c.captured == |came| % 0x1_0000_0000
    && c.forwarded == |t.took| % 0x1_0000_0000
    && c.dropped == |t.lost| % 0x1_0000_0000
  }

  lemma CloseSums(t: Tally, was: seq<Capture>, c: Counters, came: seq<Capture>, more: seq<Capture>,
                  c': Counters, closed: seq<Capture>, open: seq<Capture>, taken: bool, bytes: nat)
    requires Sums(t, was, c, came) && closed + open == was + more && bytes <= Alone(closed)
    requires c' == c.(captured := |came + more| % 0x1_0000_0000, oversized := c'.oversized)
    ensures Sums(Plus(t, closed, taken, bytes), open, Counted(c', closed, taken), came + more)
  {
    assert t.all + closed + open == t.all + (closed + open);
    assert t.all + (was + more) == (t.all + was) + more;
    PacketBytesAppend(t.took, closed);
    ModAdd(|t.took|, |closed|);
    ModAdd(|t.lost|, |closed|);
    if closed == [] {
      assert t.took + [] == t.took && t.lost + [] == t.lost;
    }
  }

  lemma ForwardSums(s: Batch, t: Tally, came: seq<Capture>, c: Call) returns (u: Tally)
    requires c.Forward? && Possible(c) && t == Decoded(s.log) && Sums(t, s.open, s.counters, came)
    ensures u == Decoded(Step(s, c).log) && Sums(u, Step(s, c).open, Step(s, c).counters, came + Came(c))
  {
    var p := Captured(c.ts, c.h4, c.data);
    CapturedIsSound(c.ts, c.h4, c.data);
    AddKeeps(s.open, p);
    var a := Add(s.open, p);
    ModAdd(|came|, 1);
    var bytes := CloseDecodes(s.log, a.closed, c.taken);
    u := Plus(t, a.closed, c.taken, bytes);
    CloseSums(t, s.open, s.counters, came, [p], Taken(s.counters, c.data), a.closed, a.open, c.taken, bytes);
  }

  lemma FlushSums(s: Batch, t: Tally, came: seq<Capture>, c: Call) returns (u: Tally)
    requires c.Flush? && t == Decoded(s.log) && Sums(t, s.open, s.counters, came)
    ensures u == Decoded(Step(s, c).log) && Sums(u, Step(s, c).open, Step(s, c).counters, came + Came(c))
  {
    assert s.open + [] == s.open && came + [] == came;
    var bytes := CloseDecodes(s.log, s.open, c.taken);
    u := Plus(t, s.open, c.taken, bytes);
    CloseSums(t, s.open, s.counters, came, [], s.counters, s.open, [], c.taken, bytes);
  }

  lemma Associate(a: seq<Capture>, b: seq<Capture>, c: seq<Capture>)
    ensures (a + b) + c == a + (b + c)
  {
  }

  lemma {:induction false} RunSums(s: Batch, t: Tally, came: seq<Capture>, cs: seq<Call>) returns (u: Tally)
    requires t == Decoded(s.log) && Sums(t, s.open, s.counters, came) && forall c :: c in cs ==> Possible(c)
    ensures u == Decoded(Run(s, cs).log)
    ensures Sums(u, Run(s, cs).open, Run(s, cs).counters, came + AllCaptured(cs))
    decreases |cs|
  {
    if cs == [] {
      assert came + [] == came;
      return t;
    }
    if cs[0].Forward? {
      u := ForwardSums(s, t, came, cs[0]);
    } else {
      u := FlushSums(s, t, came, cs[0]);
    }
    u := RunSums(Step(s, cs[0]), u, came + Came(cs[0]), cs[1..]);
    Associate(came, Came(cs[0]), AllCaptured(cs[1..]));
  }

  lemma FromInit(cs: seq<Call>) returns (u: Tally)
    requires forall c :: c in cs ==> Possible(c)
    ensures u == Decoded(Run(Init(), cs).log)
    ensures Sums(u, Run(Init(), cs).open, Run(Init(), cs).counters, AllCaptured(cs))
  {
    var none: seq<Capture> := [];
    assert Decoded([]) == Tally(none, none, none, 0) && none + none == none;
    u := RunSums(Init(), Decoded([]), [], cs);
    assert [] + AllCaptured(cs) == AllCaptured(cs);
  }

  /** The frames offered, decoded in order, and then the open batch are exactly the packets
      forwarded: after any calls none is lost from a frame, repeated, altered or out of
      order. */
  lemma RunDecodes(cs: seq<Call>)
    requires forall c :: c in cs ==> Possible(c)
    ensures Decoded(Run(Init(), cs).log).all + Run(Init(), cs).open == AllCaptured(cs)
  {
    var t := FromInit(cs);
  }

  /** Every packet forwarded is in a frame the link took, in one it refused, or open, and
      the three counters say how many, modulo 2^32. */
  lemma RunConserves(cs: seq<Call>)
    requires forall c :: c in cs ==> Possible(c)
    ensures var s := Run(Init(), cs); var t := Decoded(s.log);
      && |AllCaptured(cs)| == |t.took| + |t.lost| + |s.open|
      && s.counters.captured == |AllCaptured(cs)| % 0x1_0000_0000
      && s.counters.forwarded == |t.took| % 0x1_0000_0000
      && s.counters.dropped == |t.lost| % 0x1_0000_0000
  {
    var t := FromInit(cs);
  }

  /** And the frames the link took are together no longer than one PACKET frame for each
      packet in them. */
  lemma NeverDearerThanAlone(cs: seq<Call>)
    requires forall c :: c in cs ==> Possible(c)
    ensures var t := Decoded(Run(Init(), cs).log);
      t.framed <= 22 * |t.took| + PacketBytes(t.took)
  {
    var t := FromInit(cs);
  }
}
