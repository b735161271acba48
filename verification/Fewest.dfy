/** How well the batchers batch: no way of cutting the same packets into batches that the
    format can carry takes fewer frames. */
module Fewest {
  import opened Wire
  import B = Batch154
  import L = BatchBle

  /** What a batch may be: at most `most` packets, and any part of one is one. */
  datatype Limits<!T> = Limits(carries: seq<T> -> bool, most: nat)

  ghost predicate PartsCarry<T(!new)>(l: Limits<T>) {
    forall ps: seq<T> :: l.carries(ps) ==>
      1 <= |ps| <= l.most && forall i, j :: 0 <= i < j <= |ps| ==> l.carries(ps[i..j])
  }

  /** Close when the next packet cannot join, and when the batch is full. */
  function Next<T>(l: Limits<T>, open: seq<T>, p: T): (r: (seq<T>, seq<T>)) {
    if !l.carries(open + [p]) then ([p], open)
    else if |open| + 1 == l.most then ([], open + [p])
    else (open + [p], [])
  }

  /** The batches that `ps`, added one by one to an open batch, are sent in, the last of
      them by whatever closes it in the end. */
  function Cuts<T>(l: Limits<T>, open: seq<T>, ps: seq<T>): (bs: seq<seq<T>>)
    decreases |ps|
  {
    if ps == [] then (if open == [] then [] else [open])
    else
      var a := Next(l, open, ps[0]);
      (if a.1 == [] then [] else [a.1]) + Cuts(l, a.0, ps[1..])
  }

  function Join<T>(bs: seq<seq<T>>): (ps: seq<T>) {
    if bs == [] then [] else bs[0] + Join(bs[1..])
  }

  /** A way of cutting `ps` into batches. */
  ghost predicate Batching<T>(l: Limits<T>, bs: seq<seq<T>>, ps: seq<T>) {
    Join(bs) == ps && forall i :: 0 <= i < |bs| ==> l.carries(bs[i])
  }

  lemma PartCarries<T(!new)>(l: Limits<T>, ps: seq<T>, i: nat, j: nat)
    requires PartsCarry(l) && l.carries(ps) && i < j <= |ps|
    ensures l.carries(ps[i..j])
  {
  }

  lemma BatchingFront<T>(l: Limits<T>, b: seq<T>, bs: seq<seq<T>>, ps: seq<T>)
    requires l.carries(b) && Batching(l, bs, ps)
    ensures Batching(l, [b] + bs, b + ps)
  {
    assert ([b] + bs)[1..] == bs;
  }

  lemma BatchingRest<T>(l: Limits<T>, bs: seq<seq<T>>, ps: seq<T>)
    requires bs != [] && Batching(l, bs, ps)
    ensures |bs[0]| <= |ps| && bs[0] == ps[..|bs[0]|] && Batching(l, bs[1..], ps[|bs[0]|..])
  {
  }

  lemma BehindPart<T(!new)>(l: Limits<T>, bs: seq<seq<T>>, ps: seq<T>, k: nat)
    requires PartsCarry(l) && bs != [] && Batching(l, bs, ps) && k < |bs[0]|
    ensures k <= |ps| && Batching(l, [bs[0][k..]] + bs[1..], ps[k..])
  {
    var b := bs[0];
    BatchingRest(l, bs, ps);
    PartCarries(l, b, k, |b|);
    assert b[k..|b|] == b[k..];
    BatchingFront(l, b[k..], bs[1..], ps[|b|..]);
    assert b[k..] + ps[|b|..] == ps[k..];
  }

  /** Without its first `k` packets a batching needs no more batches. */
  lemma {:induction false} Behind<T(!new)>(l: Limits<T>, bs: seq<seq<T>>, ps: seq<T>, k: nat) returns (rest: seq<seq<T>>)
    requires PartsCarry(l) && Batching(l, bs, ps) && k <= |ps|
    ensures Batching(l, rest, ps[k..]) && |rest| <= |bs|
    decreases |bs|
  {
    if k == 0 {
      rest := bs;
      assert ps[0..] == ps;
    } else if k < |bs[0]| {
      BehindPart(l, bs, ps, k);
      rest := [bs[0][k..]] + bs[1..];
    } else {
      var n := |bs[0]|;
      BatchingRest(l, bs, ps);
      rest := Behind(l, bs[1..], ps[n..], k - n);
      assert ps[n..][k - n..] == ps[k..];
    }
  }

  lemma LongerCarries<T(!new)>(l: Limits<T>, b: seq<T>, front: seq<T>, next: T)
    requires PartsCarry(l) && l.carries(b) && front + [next] <= b
    ensures l.carries(front + [next])
  {
    PartCarries(l, b, 0, |front| + 1);
    assert b[0..|front| + 1] == front + [next];
  }

  /** Any batching's first batch ends no later than what the batcher closes. */
  lemma FirstEnds<T(!new)>(l: Limits<T>, closed: seq<T>, rest: seq<T>, bs: seq<seq<T>>)
    requires PartsCarry(l) && l.carries(closed) && Batching(l, bs, closed + rest)
    requires |closed| == l.most || (rest != [] && !l.carries(closed + [rest[0]]))
    ensures bs != [] && |bs[0]| <= |closed|
  {
    BatchingRest(l, bs, closed + rest);
    if |closed| < l.most && |bs[0]| > |closed| {
      assert closed + [rest[0]] <= bs[0];
      LongerCarries(l, bs[0], closed, rest[0]);
    }
  }

  /** Once the batcher has closed a batch, any batching of the whole has one to spare. */
  lemma AfterClose<T(!new)>(l: Limits<T>, closed: seq<T>, rest: seq<T>, bs: seq<seq<T>>) returns (more: seq<seq<T>>)
    requires PartsCarry(l) && l.carries(closed) && Batching(l, bs, closed + rest)
    requires |closed| == l.most || (rest != [] && !l.carries(closed + [rest[0]]))
    ensures Batching(l, more, rest) && |more| < |bs|
  {
    var all := closed + rest;
    FirstEnds(l, closed, rest, bs);
    var n := |bs[0]|;
    BatchingRest(l, bs, all);
    more := Behind(l, bs[1..], all[n..], |closed| - n);
    assert all[n..][|closed| - n..] == rest;
  }

  lemma AddedUp<T>(closed: seq<T>, left: seq<T>, open: seq<T>, p: T, rest: seq<T>)
    requires closed + left == open + [p]
    ensures closed + (left + rest) == open + ([p] + rest)
  {
    assert closed + (left + rest) == (closed + left) + rest;
    assert (open + [p]) + rest == open + ([p] + rest);
  }

  /** An open batch, and packets each of which can go on its own. */
  ghost predicate Ready<T>(l: Limits<T>, open: seq<T>, ps: seq<T>) {
    && (open == [] || (l.carries(open) && |open| < l.most))
    && forall i :: 0 <= i < |ps| ==> l.carries([ps[i]])
  }

  lemma NextIsSound<T(!new)>(l: Limits<T>, open: seq<T>, ps: seq<T>)
    requires PartsCarry(l) && l.most > 1 && Ready(l, open, ps) && ps != []
    ensures var a := Next(l, open, ps[0]);
      && Ready(l, a.0, ps[1..]) && (a.1 == [] || l.carries(a.1)) && a.1 + a.0 == open + [ps[0]]
      && a.1 + (a.0 + ps[1..]) == open + ps
      && (a.1 != [] ==> |a.1| == l.most || (a.0 != [] && !l.carries(a.1 + [a.0[0]])))
  {
    var a := Next(l, open, ps[0]);
    assert [] + [ps[0]] == [ps[0]];
    assert ps == [ps[0]] + ps[1..];
    AddedUp(a.1, a.0, open, ps[0], ps[1..]);
  }

  lemma {:induction false} NoneBetter<T(!new)>(l: Limits<T>, open: seq<T>, ps: seq<T>, bs: seq<seq<T>>)
    requires PartsCarry(l) && l.most > 1 && Ready(l, open, ps) && Batching(l, bs, open + ps)
    ensures |Cuts(l, open, ps)| <= |bs|
    decreases |ps|
  {
    if ps == [] {
      assert open + [] == open;
    } else {
      var a := Next(l, open, ps[0]);
      NextIsSound(l, open, ps);
      if a.1 == [] {
        assert [] + (a.0 + ps[1..]) == a.0 + ps[1..];
        NoneBetter(l, a.0, ps[1..], bs);
      } else {
        var more := AfterClose(l, a.1, a.0 + ps[1..], bs);
        NoneBetter(l, a.0, ps[1..], more);
      }
    }
  }

  lemma {:induction false} CutsCarry<T(!new)>(l: Limits<T>, open: seq<T>, ps: seq<T>)
    requires PartsCarry(l) && l.most > 1 && Ready(l, open, ps)
    ensures Batching(l, Cuts(l, open, ps), open + ps)
    decreases |ps|
  {
    if ps == [] {
      assert open + [] == open && Join([open]) == open + Join([open][1..]);
    } else {
      var a := Next(l, open, ps[0]);
      var bs := Cuts(l, a.0, ps[1..]);
      NextIsSound(l, open, ps);
      CutsCarry(l, a.0, ps[1..]);
      if a.1 == [] {
        assert [] + bs == bs && [] + (a.0 + ps[1..]) == a.0 + ps[1..];
      } else {
        BatchingFront(l, a.1, bs, a.0 + ps[1..]);
      }
    }
  }

  // ---- the two batchers ----

  ghost function Limits154(): (l: Limits<B.Packet>) {
    Limits((ps: seq<B.Packet>) => B.Carries(ps), 32)
  }

  ghost function LimitsBle(): (l: Limits<L.Capture>) {
    Limits((cs: seq<L.Capture>) => L.Carries(cs), 32)
  }

  lemma PartsCarry154()
    ensures PartsCarry(Limits154())
  {
    forall ps: seq<B.Packet>, i, j | B.Carries(ps) && 0 <= i < j <= |ps| ensures B.Carries(ps[i..j]) {
      var part := ps[i..j];
      assert ps == ps[..i] + part + ps[j..];
      B.PsduAppend(ps[..i] + part, ps[j..]);
      B.PsduAppend(ps[..i], part);
      assert forall k :: 0 <= k < |part| ==> part[k] == ps[i + k];
    }
  }

  lemma PartsCarryBle()
    ensures PartsCarry(LimitsBle())
  {
    forall cs: seq<L.Capture>, i, j | L.Carries(cs) && 0 <= i < j <= |cs| ensures L.Carries(cs[i..j]) {
      var part := cs[i..j];
      assert cs == cs[..i] + part + cs[j..];
      L.PacketBytesAppend(cs[..i] + part, cs[j..]);
      L.PacketBytesAppend(cs[..i], part);
      assert forall k :: 0 <= k < |part| ==> part[k] == cs[i + k];
    }
  }

  /** The batches of sn_batch_add. */
  function Sent154(open: seq<B.Packet>, ps: seq<B.Packet>): (bs: seq<seq<B.Packet>>)
    decreases |ps|
  {
    if ps == [] then (if open == [] then [] else [open])
    else
      var a := B.Add(open, ps[0]);
      (if a.closed == [] then [] else [a.closed]) + Sent154(a.open, ps[1..])
  }

  function SentBle(open: seq<L.Capture>, cs: seq<L.Capture>): (bs: seq<seq<L.Capture>>)
    decreases |cs|
  {
    if cs == [] then (if open == [] then [] else [open])
    else
      var a := L.Add(open, cs[0]);
      (if a.closed == [] then [] else [a.closed]) + SentBle(a.open, cs[1..])
  }

  lemma {:induction false} Sent154Is(open: seq<B.Packet>, ps: seq<B.Packet>)
    requires Ready(Limits154(), open, ps) && forall p :: p in ps ==> |p.psdu| <= 127
    ensures Sent154(open, ps) == Cuts(Limits154(), open, ps)
    decreases |ps|
  {
    if ps != [] {
      PartsCarry154();
      B.ClosesExactly(open, ps[0]);
      NextIsSound(Limits154(), open, ps);
      Sent154Is(B.Add(open, ps[0]).open, ps[1..]);
    }
  }

  lemma {:induction false} SentBleIs(open: seq<L.Capture>, cs: seq<L.Capture>)
    requires Ready(LimitsBle(), open, cs) && forall c :: c in cs ==> L.CutTo300(c)
    ensures SentBle(open, cs) == Cuts(LimitsBle(), open, cs)
    decreases |cs|
  {
    if cs != [] {
      PartsCarryBle();
      L.ClosesExactly(open, cs[0]);
      NextIsSound(LimitsBle(), open, cs);
      SentBleIs(L.Add(open, cs[0]).open, cs[1..]);
    }
  }

  /** The 802.15.4 batcher sends every packet, in order, in batches the format can carry,
      and no other way of batching the same packets takes fewer frames. */
  lemma Fewest154(ps: seq<B.Packet>, others: seq<seq<B.Packet>>)
    requires forall p :: p in ps ==> |p.psdu| <= 127
    requires Batching(Limits154(), others, ps)
    ensures Batching(Limits154(), Sent154([], ps), ps)
    ensures |Sent154([], ps)| <= |others|
  {
    forall i | 0 <= i < |ps| ensures B.Carries([ps[i]]) {
      assert B.PsduBytes([ps[i]]) == |ps[i].psdu| + B.PsduBytes([ps[i]][1..]);
    }
    assert [] + ps == ps;
    PartsCarry154();
    Sent154Is([], ps);
    CutsCarry(Limits154(), [], ps);
    NoneBetter(Limits154(), [], ps, others);
  }

  /** And so does the BLE batcher. */
  lemma FewestBle(cs: seq<L.Capture>, others: seq<seq<L.Capture>>)
    requires forall c :: c in cs ==> L.CutTo300(c)
    requires Batching(LimitsBle(), others, cs)
    ensures Batching(LimitsBle(), SentBle([], cs), cs)
    ensures |SentBle([], cs)| <= |others|
  {
    forall i | 0 <= i < |cs| ensures L.Carries([cs[i]]) {
      assert L.PacketBytes([cs[i]]) == |cs[i].bytes| + L.PacketBytes([cs[i]][1..]);
    }
    assert [] + cs == cs;
    PartsCarryBle();
    SentBleIs([], cs);
    CutsCarry(LimitsBle(), [], cs);
    NoneBetter(LimitsBle(), [], cs, others);
  }
}
