/** Who may wait for whom. The five threads that take the capture path's mutexes or
    wait for an HCI answer, each running the lock operations of the functions it calls. */
module LockOrder {
  datatype Resource = CmdLock | CmdDone | BleLock | BatchLock | EncodeLock
  datatype Thread = Reader | RxThread | WorkQueue | Forwarder | Logger

  datatype Op =
    | Acquire(r: Resource)
    | Release(r: Resource)
    | Await                 // k_sem_take(&cmd_done), without its timeout
    | Deliver               // k_sem_give(&cmd_done), from note_command_result

  // The lock operations of each function, in the order its text performs them.

  /** sn_link_send */
  const SEND := [Acquire(EncodeLock), Release(EncodeLock)]
  /** sn_batch_add, sn_batch_flush and linger_expired, when they send and when not */
  const BATCH_SENDS := [Acquire(BatchLock), Acquire(EncodeLock), Release(EncodeLock), Release(BatchLock)]
  const BATCH_QUIET := [Acquire(BatchLock), Release(BatchLock)]
  /** forward, sn_radio_ble_stop's flush and ble_linger_expired */
  const BLE_SENDS := [Acquire(BleLock), Acquire(EncodeLock), Release(EncodeLock), Release(BleLock)]
  const BLE_QUIET := [Acquire(BleLock), Release(BleLock)]
  /** hci_command, when the command was sent and when it could not be */
  const COMMAND := [Acquire(CmdLock), Await, Release(CmdLock)]
  const COMMAND_FAILS := [Acquire(CmdLock), Release(CmdLock)]
  /** note_command_result, on a match */
  const ANSWER := [Deliver]

  /** What each thread runs, in any order and any number of times. */
  predicate Runs(t: Thread, block: seq<Op>) {
    match t
    case Reader => block in [SEND, BATCH_SENDS, BATCH_QUIET, BLE_SENDS, BLE_QUIET, COMMAND, COMMAND_FAILS]
    case RxThread => block in [BATCH_SENDS, BATCH_QUIET]
    case WorkQueue => block in [SEND, BATCH_SENDS, BATCH_QUIET, BLE_SENDS, BLE_QUIET, COMMAND, COMMAND_FAILS]
    case Forwarder => block in [BLE_SENDS, BLE_QUIET, ANSWER]
    case Logger => block == SEND
  }

  datatype Locks = Locks(
    todo: Thread -> seq<Op>,         // the rest of the block each thread is in
    held: Thread -> set<Resource>,
    cmdDone: bool)

  datatype Event = Begin(t: Thread, block: seq<Op>) | Do(t: Thread)

  function Init(): (s: Locks) {
    Locks(_ => [], _ => {}, false)
  }

  ghost predicate Free(s: Locks, r: Resource) {
    forall t :: r !in s.held(t)
  }

  ghost predicate CanDo(s: Locks, t: Thread) {
    && s.todo(t) != []
    && match s.todo(t)[0]
       case Acquire(r) => Free(s, r)
       case Release(r) => true
       case Await => s.cmdDone
       case Deliver => true
  }

  ghost predicate Enabled(s: Locks, e: Event) {
    match e
    case Begin(t, block) => s.todo(t) == [] && Runs(t, block)
    case Do(t) => CanDo(s, t)
  }

  function Put<V>(f: Thread -> V, t: Thread, v: V): (g: Thread -> V)
    ensures forall u :: g(u) == if u == t then v else f(u)
  {
    (u: Thread) => if u == t then v else f(u)
  }

  ghost function Step(s: Locks, e: Event): (r: Locks)
    requires Enabled(s, e)
  {
    match e
    case Begin(t, block) => s.(todo := Put(s.todo, t, block))
    case Do(t) =>
      var s' := s.(todo := Put(s.todo, t, s.todo(t)[1..]));
      match s.todo(t)[0]
      case Acquire(r) => s'.(held := Put(s.held, t, s.held(t) + {r}))
      case Release(r) => s'.(held := Put(s.held, t, s.held(t) - {r}))
      case Await => s'.(cmdDone := false)
      case Deliver => s'.(cmdDone := true)
  }

  ghost predicate IsRun(s: Locks, es: seq<Event>)
    decreases |es|
  {
    es != [] ==> Enabled(s, es[0]) && IsRun(Step(s, es[0]), es[1..])
  }

  ghost function Run(s: Locks, es: seq<Event>): (r: Locks)
    requires IsRun(s, es)
    decreases |es|
  {
    if es == [] then s else Run(Step(s, es[0]), es[1..])
  }

  /** The order everything is taken in. */
  function Rank(r: Resource): (n: nat) {
    match r
    case CmdLock => 0
    case CmdDone => 1
    case BleLock => 2
    case BatchLock => 2
    case EncodeLock => 3
  }

  /** How high a thread's next wait ranks; 0 when its next step is no wait. */
  function Level(todo: seq<Op>): (n: nat) {
    if todo == [] then 0
    else match todo[0]
      case Acquire(r) => 1 + Rank(r)
      case Await => 1 + Rank(CmdDone)
      case _ => 0
  }

  /** What is held ranks below whatever is asked for next, and the forwarding thread asks
      for neither cmd_lock nor cmd_done. */
  predicate Ordered(t: Thread, todo: seq<Op>, held: set<Resource>)
    decreases |todo|
  {
    if todo == [] then held == {}
    else match todo[0]
      case Acquire(r) =>
        && (forall h :: h in held ==> Rank(h) < Rank(r))
        && r != CmdDone && (t == Forwarder ==> r != CmdLock)
        && Ordered(t, todo[1..], held + {r})
      case Release(r) => r in held && Ordered(t, todo[1..], held - {r})
      case Await => (forall h :: h in held ==> Rank(h) < Rank(CmdDone)) && t != Forwarder && Ordered(t, todo[1..], held)
      case Deliver => Ordered(t, todo[1..], held)
  }

  ghost predicate Inv(s: Locks) {
    && (forall t :: Ordered(t, s.todo(t), s.held(t)))
    && (forall t, u, r :: r in s.held(t) && r in s.held(u) ==> t == u)
    && (forall t :: CmdDone !in s.held(t))
  }

  lemma NestedOrdered(t: Thread, outer: Resource)
    requires outer == BleLock || outer == BatchLock
    ensures Ordered(t, [Acquire(outer), Acquire(EncodeLock), Release(EncodeLock), Release(outer)], {})
  {
    var all := [Acquire(outer), Acquire(EncodeLock), Release(EncodeLock), Release(outer)];
    assert all[1..][1..][1..] == [Release(outer)] && [Release(outer)][1..] == [];
    assert {outer} + {EncodeLock} - {EncodeLock} == {outer} && {outer} - {outer} == {};
    assert Ordered(t, [Release(outer)], {outer});
    assert Ordered(t, all[1..][1..], {outer, EncodeLock});
    assert {} + {outer} == {outer};
  }

  lemma FlatOrdered(t: Thread, r: Resource)
    requires r != CmdDone && (t == Forwarder ==> r != CmdLock)
    ensures Ordered(t, [Acquire(r), Release(r)], {})
  {
    var all := [Acquire(r), Release(r)];
    assert all[1..] == [Release(r)] && [Release(r)][1..] == [];
    assert {} + {r} == {r} && {r} - {r} == {};
  }

  lemma CommandOrdered(t: Thread)
    requires t != Forwarder
    ensures Ordered(t, COMMAND, {})
  {
    assert COMMAND[1..][1..] == [Release(CmdLock)] && [Release(CmdLock)][1..] == [];
    assert {} + {CmdLock} == {CmdLock} && {CmdLock} - {CmdLock} == {};
    assert Ordered(t, [Release(CmdLock)], {CmdLock});
    assert Ordered(t, COMMAND[1..], {CmdLock});
  }

  /** Every function of every thread respects the order. */
  lemma BlocksOrdered(t: Thread, block: seq<Op>)
    requires Runs(t, block)
    ensures Ordered(t, block, {})
  {
    if block == SEND {
      FlatOrdered(t, EncodeLock);
    } else if block == BATCH_SENDS {
      NestedOrdered(t, BatchLock);
    } else if block == BATCH_QUIET {
      FlatOrdered(t, BatchLock);
    } else if block == BLE_SENDS {
      NestedOrdered(t, BleLock);
    } else if block == BLE_QUIET {
      FlatOrdered(t, BleLock);
    } else if block == ANSWER {
      assert ANSWER[1..] == [];
    } else if block == COMMAND {
      CommandOrdered(t);
    } else {
      FlatOrdered(t, CmdLock);
    }
  }

  lemma BeginKeeps(s: Locks, t: Thread, block: seq<Op>)
    requires Inv(s) && Enabled(s, Begin(t, block))
    ensures Inv(Step(s, Begin(t, block)))
  {
    BlocksOrdered(t, block);
    assert Ordered(t, s.todo(t), s.held(t));
  }

  lemma DoKeeps(s: Locks, t: Thread)
    requires Inv(s) && Enabled(s, Do(t))
    ensures Inv(Step(s, Do(t)))
  {
    var r := Step(s, Do(t));
    assert Ordered(t, s.todo(t), s.held(t));
    forall u ensures Ordered(u, r.todo(u), r.held(u)) {
      assert Ordered(u, s.todo(u), s.held(u));
    }
  }

  lemma StepKeeps(s: Locks, e: Event)
    requires Inv(s) && Enabled(s, e)
    ensures Inv(Step(s, e))
  {
    match e
    case Begin(t, block) => BeginKeeps(s, t, block);
    case Do(t) => DoKeeps(s, t);
  }

  lemma {:induction false} RunKeeps(s: Locks, es: seq<Event>)
    requires Inv(s) && IsRun(s, es)
    ensures Inv(Run(s, es))
    decreases |es|
  {
    if es != [] {
      StepKeeps(s, es[0]);
      RunKeeps(Step(s, es[0]), es[1..]);
    }
  }

  ghost predicate Reachable(s: Locks) {
    exists es :: IsRun(Init(), es) && Run(Init(), es) == s
  }

  lemma ReachableInv(s: Locks)
    requires Reachable(s)
    ensures Inv(s)
  {
    var es :| IsRun(Init(), es) && Run(Init(), es) == s;
    RunKeeps(Init(), es);
  }

  /** `t` can go on only after `u` has done something: `u` holds the mutex `t` asks for,
      or `t` waits for an answer while the forwarding thread is busy elsewhere. */
  ghost predicate WaitsFor(s: Locks, t: Thread, u: Thread) {
    && s.todo(t) != []
    && match s.todo(t)[0]
       case Acquire(r) => r in s.held(u)
       case Await => !s.cmdDone && u == Forwarder && s.todo(Forwarder) != []
       case _ => false
  }

  /** One wait leads only to a higher one. */
  lemma WaitsRise(s: Locks, t: Thread, u: Thread, v: Thread)
    requires Inv(s) && WaitsFor(s, t, u) && WaitsFor(s, u, v)
    ensures Level(s.todo(t)) < Level(s.todo(u))
  {
    assert Ordered(u, s.todo(u), s.held(u));
  }

  ghost predicate WaitChain(s: Locks, ts: seq<Thread>) {
    forall i :: 0 <= i < |ts| - 1 ==> WaitsFor(s, ts[i], ts[i + 1])
  }

  lemma {:induction false} ChainRises(s: Locks, ts: seq<Thread>, n: nat)
    requires Inv(s) && WaitChain(s, ts) && 0 < n < |ts| - 1
    ensures Level(s.todo(ts[0])) < Level(s.todo(ts[n]))
  {
    assert WaitsFor(s, ts[n - 1], ts[n]) && WaitsFor(s, ts[n], ts[n + 1]);
    WaitsRise(s, ts[n - 1], ts[n], ts[n + 1]);
    if n > 1 {
      ChainRises(s, ts, n - 1);
    }
  }

  /** No reachable state has a cycle of waiters, of any length. */
  lemma NoDeadlock(s: Locks, ts: seq<Thread>)
    requires Reachable(s) && |ts| >= 2 && WaitChain(s, ts)
    ensures ts[0] != ts[|ts| - 1]
  {
    ReachableInv(s);
    if ts[0] == ts[|ts| - 1] {
      assert WaitsFor(s, ts[0], ts[1]);
      var more := ts + [ts[1]];
      forall i | 0 <= i < |more| - 1 ensures WaitsFor(s, more[i], more[i + 1]) {
        if i < |ts| - 1 {
          assert WaitsFor(s, ts[i], ts[i + 1]);
        }
      }
      ChainRises(s, more, |ts| - 1);
    }
  }

  /** A thread that cannot go on waits for another, unless it is the controller it
      waits for. */
  lemma BlockedWaits(s: Locks, t: Thread) returns (u: Thread)
    requires s.todo(t) != [] && !CanDo(s, t)
    ensures WaitsFor(s, t, u) || (s.todo(t)[0] == Await && s.todo(Forwarder) == [])
  {
    u := Forwarder;
    if s.todo(t)[0].Acquire? {
      u :| s.todo(t)[0].r in s.held(u);
    }
  }

  /** From any unfinished thread, following the waits reaches one that can go on, or one
      waiting for an answer the controller has yet to give. */
  lemma {:induction false} Progress(s: Locks, t: Thread) returns (u: Thread)
    requires Inv(s) && s.todo(t) != []
    ensures s.todo(u) != []
    ensures CanDo(s, u) || (s.todo(u)[0] == Await && s.todo(Forwarder) == [])
    decreases 4 - Level(s.todo(t))
  {
    if CanDo(s, t) {
      return t;
    }
    u := BlockedWaits(s, t);
    if !WaitsFor(s, t, u) {
      return t;
    }
    assert Ordered(u, s.todo(u), s.held(u));
    if CanDo(s, u) {
      return u;
    }
    var v := BlockedWaits(s, u);
    if !WaitsFor(s, u, v) {
      return u;
    }
    WaitsRise(s, t, u, v);
    u := Progress(s, u);
  }

  /** The forwarding thread, which delivers the answers, never waits on the command lock
      or for an answer. */
  lemma ForwarderNeverWaitsForCommands(s: Locks)
    requires Reachable(s) && s.todo(Forwarder) != []
    ensures s.todo(Forwarder)[0] != Await && s.todo(Forwarder)[0] != Acquire(CmdLock)
  {
    ReachableInv(s);
    assert Ordered(Forwarder, s.todo(Forwarder), s.held(Forwarder));
  }
}
