/** The linger timer against adds and explicit flushes. Both batchers have the same
    shape (sn_batch_add, sn_batch_flush and linger_expired; forward, sn_radio_ble_stop
    and ble_linger_expired), so one machine serves both.

    Of Zephyr's delayable work this uses: rescheduling arms the timer; an expiry queues
    the handler, again if it is running; a cancel disarms the timer and takes a queued
    handler back, and when the handler is running it marks the work as being cancelled
    until the handler returns. An expiry in that time is dropped. */
module Linger {
  import Batch154

  const MAX_ENTRIES := Batch154.MAX_ENTRIES

  /** Who holds the batch lock, and how far that operation has come. */
  datatype Holder =
    | Free
    | AddEntered | AddAppended | AddFlushed | AddSettled
    | Flushing | FlushDone
    | ByHandler

  /** How far the handler has come. `Returning` has unlocked and not yet returned. */
  datatype Handler = Resting | Waiting | Locked | Emptied | Returning

  datatype Lin = Lin(
    count: nat,           // packets in the open batch
    lock: Holder,
    armed: bool,          // the timer is running
    queued: bool,         // the handler is on the work queue
    handler: Handler,
    canceling: bool,      // a cancel came while the handler ran
    flushers: nat,        // explicit flushes between their cancel and their lock
    dropped: bool)        // history: an expiry was dropped behind the handler's unlock, and
                          // no timer, flush or handler has come since

  datatype Event =
    | AddLock | AddAppend(closed: bool) | AddFull | AddCancel | AddArm | AddUnlock
    | FlushCancel | FlushLock | FlushBody | FlushUnlock
    | TimerFires | HandlerStarts | HandlerLock | HandlerBody | HandlerUnlock | HandlerReturns

  function Init(): (s: Lin) {
    Lin(0, Free, false, false, Resting, false, 0, false)
  }

  predicate Enabled(s: Lin, e: Event) {
    match e
    case AddLock => s.lock == Free
    case AddAppend(_) => s.lock == AddEntered
    case AddFull => s.lock == AddAppended && s.count == MAX_ENTRIES
    case AddCancel => s.lock == AddFlushed
    case AddArm => s.lock == AddAppended && s.count != MAX_ENTRIES
    case AddUnlock => s.lock == AddSettled
    case FlushCancel => true
    case FlushLock => s.lock == Free && s.flushers > 0
    case FlushBody => s.lock == Flushing
    case FlushUnlock => s.lock == FlushDone
    case TimerFires => s.armed
    case HandlerStarts => s.queued && s.handler == Resting
    case HandlerLock => s.handler == Waiting && s.lock == Free
    case HandlerBody => s.handler == Locked
    case HandlerUnlock => s.handler == Emptied
    case HandlerReturns => s.handler == Returning
  }

  /** k_work_cancel_delayable */
  function Cancelled(s: Lin): (r: Lin) {
    s.(armed := false, queued := false, canceling := s.canceling || s.handler != Resting)
  }

  /** The timer's expiry. */
  function Fired(s: Lin): (r: Lin) {
    if !s.canceling then s.(armed := false, queued := true)
    else s.(armed := false, dropped := s.dropped || (s.handler == Returning && s.count > 0 && s.flushers == 0))
  }

  function Step(s: Lin, e: Event): (r: Lin)
    requires Enabled(s, e)
  {
    match e
    case AddLock => s.(lock := AddEntered)
    case AddAppend(closed) => s.(lock := AddAppended, count := (if closed then 0 else s.count) + 1)
    case AddFull => s.(lock := AddFlushed, count := 0, dropped := false)
    case AddCancel => Cancelled(s).(lock := AddSettled)
    case AddArm => s.(lock := AddSettled, armed := true, dropped := false)
    case AddUnlock => s.(lock := Free)
    case FlushCancel => Cancelled(s).(flushers := s.flushers + 1, dropped := false)
    case FlushLock => s.(lock := Flushing, flushers := s.flushers - 1)
    case FlushBody => s.(lock := FlushDone, count := 0, dropped := false)
    case FlushUnlock => s.(lock := Free)
    case TimerFires => Fired(s)
    case HandlerStarts => s.(queued := false, handler := Waiting)
    case HandlerLock => s.(handler := Locked, lock := ByHandler)
    case HandlerBody => s.(handler := Emptied, count := 0, dropped := false)
    case HandlerUnlock => s.(handler := Returning, lock := Free)
    case HandlerReturns => s.(handler := Resting, canceling := false)
  }

  ghost predicate IsRun(s: Lin, es: seq<Event>)
    decreases |es|
  {
    es != [] ==> Enabled(s, es[0]) && IsRun(Step(s, es[0]), es[1..])
  }

  ghost function Run(s: Lin, es: seq<Event>): (r: Lin)
    requires IsRun(s, es)
    decreases |es|
  {
    if es == [] then s else Run(Step(s, es[0]), es[1..])
  }

  /** Something is still going to flush. */
  predicate Covered(s: Lin) {
    s.armed || s.queued || s.handler == Waiting || s.flushers > 0
  }

  ghost predicate Inv(s: Lin) {
    && s.count <= MAX_ENTRIES
    && (s.lock != AddAppended ==> s.count < MAX_ENTRIES)
    && (s.lock == AddFlushed || s.lock == FlushDone || s.handler == Emptied ==> s.count == 0)
    && (s.lock == ByHandler <==> s.handler == Locked || s.handler == Emptied)
    && (s.lock == Free || s.lock == AddEntered || s.lock == AddSettled ==> s.count > 0 ==> Covered(s) || s.dropped)
    && (s.dropped ==> !Covered(s) && s.count > 0 && s.handler != Locked)
    && (s.canceling ==> !s.queued && s.handler != Resting)
  }

  lemma StepKeeps(s: Lin, e: Event)
    requires Inv(s) && Enabled(s, e)
    ensures Inv(Step(s, e))
  {
  }

  lemma {:induction false} RunKeeps(s: Lin, es: seq<Event>)
    requires Inv(s) && IsRun(s, es)
    ensures Inv(Run(s, es))
    decreases |es|
  {
    if es != [] {
      StepKeeps(s, es[0]);
      RunKeeps(Step(s, es[0]), es[1..]);
    }
  }

  ghost predicate Reachable(s: Lin) {
    exists es :: IsRun(Init(), es) && Run(Init(), es) == s
  }

  lemma ReachableInv(s: Lin)
    requires Reachable(s)
    ensures Inv(s)
  {
    var es :| IsRun(Init(), es) && Run(Init(), es) == s;
    RunKeeps(Init(), es);
  }

  /** No add and no flush is part-way, and packets are waiting. */
  predicate Idle(s: Lin) {
    s.lock == Free && s.flushers == 0 && s.count > 0
  }

  /** Whenever no add and no flush is part-way, an open batch has its timer armed or its
      handler on the way, if and only if no expiry was dropped behind the handler's
      unlock with that batch open. */
  lemma NotStrandedExactly(s: Lin)
    requires Reachable(s) && Idle(s)
    ensures s.armed || s.queued || s.handler == Waiting <==> !s.dropped
  {
    ReachableInv(s);
  }

  /** The exact moment: the timer expires on an open batch while a handler that some
      cancel overtook has unlocked and not yet returned, and no flush is coming. */
  lemma DroppedExactly(s: Lin, e: Event)
    requires Reachable(s) && Enabled(s, e) && !s.dropped
    ensures Step(s, e).dropped <==>
      && e == TimerFires && s.canceling && s.handler == Returning && s.count > 0 && s.flushers == 0
  {
  }

  /** No expiry finds a handler between its unlock and its return. */
  ghost predicate Prompt(s: Lin, es: seq<Event>)
    requires IsRun(s, es)
    decreases |es|
  {
    es != [] ==> !(es[0] == TimerFires && s.handler == Returning) && Prompt(Step(s, es[0]), es[1..])
  }

  lemma {:induction false} PromptNeverDrops(s: Lin, es: seq<Event>)
    requires IsRun(s, es) && Prompt(s, es) && !s.dropped
    ensures !Run(s, es).dropped
    decreases |es|
  {
    if es != [] {
      PromptNeverDrops(Step(s, es[0]), es[1..]);
    }
  }

  /** No stranded packet, then, in every run whose handler returns from its unlock within
      the twenty milliseconds a timer takes. */
  lemma NotStranded(es: seq<Event>)
    requires IsRun(Init(), es) && Prompt(Init(), es)
    ensures var s := Run(Init(), es);
      Idle(s) ==> s.armed || s.queued || s.handler == Waiting
  {
    RunKeeps(Init(), es);
    PromptNeverDrops(Init(), es);
  }

  /** The steps that empty an open batch with nobody else's help. */
  function Rescue(s: Lin): (es: seq<Event>) {
    (if s.handler == Returning then [HandlerReturns] else [])
    + (if s.handler == Waiting then [] else if s.queued then [HandlerStarts] else [TimerFires, HandlerStarts])
    + [HandlerLock, HandlerBody, HandlerUnlock]
  }

  lemma Before(s: Lin, e: Event, es: seq<Event>)
    requires Enabled(s, e) && IsRun(Step(s, e), es)
    ensures IsRun(s, [e] + es) && Run(s, [e] + es) == Run(Step(s, e), es)
  {
    assert ([e] + es)[1..] == es;
  }

  lemma HandlerEmpties(s: Lin)
    requires s.handler == Waiting && s.lock == Free
    ensures var es := [HandlerLock, HandlerBody, HandlerUnlock];
      IsRun(s, es) && Run(s, es).count == 0 && Run(s, es).lock == Free
  {
    var s1 := Step(s, HandlerLock);
    var s2 := Step(s1, HandlerBody);
    Before(s2, HandlerUnlock, []);
    Before(s1, HandlerBody, [HandlerUnlock] + []);
    Before(s, HandlerLock, [HandlerBody] + ([HandlerUnlock] + []));
    assert [HandlerLock] + ([HandlerBody] + ([HandlerUnlock] + [])) == [HandlerLock, HandlerBody, HandlerUnlock];
  }

  lemma StartsAndEmpties(s: Lin)
    requires s.handler == Resting && s.lock == Free && (s.queued || (s.armed && !s.canceling))
    ensures IsRun(s, Rescue(s)) && Run(s, Rescue(s)).count == 0 && Run(s, Rescue(s)).lock == Free
  {
    var tail := [HandlerLock, HandlerBody, HandlerUnlock];
    var t := if s.queued then s else Step(s, TimerFires);
    HandlerEmpties(Step(t, HandlerStarts));
    Before(t, HandlerStarts, tail);
    if s.queued {
      assert Rescue(s) == [HandlerStarts] + tail;
    } else {
      Before(s, TimerFires, [HandlerStarts] + tail);
      assert Rescue(s) == [TimerFires] + ([HandlerStarts] + tail);
    }
  }

  /** And it does get sent: the timer and the handler alone, in at most six steps, take
      the state to one with nothing open. */
  lemma LingerDelivers(s: Lin)
    requires Reachable(s) && Idle(s) && !s.dropped
    ensures |Rescue(s)| <= 6 && IsRun(s, Rescue(s))
    ensures Run(s, Rescue(s)).count == 0 && Run(s, Rescue(s)).lock == Free
  {
    ReachableInv(s);
    NotStrandedExactly(s);
    if s.handler == Waiting {
      HandlerEmpties(s);
      assert Rescue(s) == [HandlerLock, HandlerBody, HandlerUnlock];
    } else if s.handler == Returning {
      var t := Step(s, HandlerReturns);
      StartsAndEmpties(t);
      Before(s, HandlerReturns, Rescue(t));
      assert Rescue(s) == [HandlerReturns] + Rescue(t);
    } else {
      StartsAndEmpties(s);
    }
  }

  // ---- a packet stranded ----

  lemma {:induction false} RunAppend(s: Lin, es: seq<Event>, e: Event)
    requires IsRun(s, es) && Enabled(Run(s, es), e)
    ensures IsRun(s, es + [e]) && Run(s, es + [e]) == Step(Run(s, es), e)
    decreases |es|
  {
    if es == [] {
      assert [e][1..] == [] && es + [e] == [e];
      assert IsRun(Step(s, e), []);
    } else {
      assert (es + [e])[1..] == es[1..] + [e];
      RunAppend(Step(s, es[0]), es[1..], e);
    }
  }

  ghost predicate IsClosed(reached: Lin -> bool) {
    reached(Init()) && forall s, e :: reached(s) && Enabled(s, e) ==> reached(Step(s, e))
  }

  /** A set of states that holds the first one and everything a step leads to. */
  type Closed = reached: Lin -> bool | IsClosed(reached) ghost witness (s: Lin) => true

  ghost function Reached(): Lin -> bool {
    s => Reachable(s)
  }

  lemma ReachableIsClosed()
    ensures IsClosed(Reached())
  {
    assert IsRun(Init(), []) && Run(Init(), []) == Init();
    forall s, e | Reachable(s) && Enabled(s, e) ensures Reachable(Step(s, e)) {
      var es :| IsRun(Init(), es) && Run(Init(), es) == s;
      RunAppend(Init(), es, e);
      assert IsRun(Init(), es + [e]) && Run(Init(), es + [e]) == Step(s, e);
    }
  }

  lemma Onward(reached: Closed, s: Lin, e: Event) returns (r: Lin)
    requires reached(s) && Enabled(s, e)
    ensures r == Step(s, e) && reached(r)
  {
    r := Step(s, e);
  }

  lemma AddOne(reached: Closed, s: Lin) returns (r: Lin)
    requires reached(s) && s.lock == Free && s.count == 0
    ensures reached(r) && r == s.(count := 1, armed := true, dropped := false)
  {
    r := Onward(reached, s, AddLock);
    r := Onward(reached, r, AddAppend(false));
    r := Onward(reached, r, AddArm);
    r := Onward(reached, r, AddUnlock);
  }

  /** A flush overtakes a running handler, which then empties the batch and unlocks. */
  lemma Overtaken(reached: Closed) returns (s: Lin)
    ensures reached(s) && s == Lin(0, Free, false, false, Returning, true, 1, false)
  {
    s := AddOne(reached, Init());
    s := Onward(reached, s, TimerFires);
    s := Onward(reached, s, HandlerStarts);
    s := Onward(reached, s, FlushCancel);
    s := Onward(reached, s, HandlerLock);
    s := Onward(reached, s, HandlerBody);
    s := Onward(reached, s, HandlerUnlock);
  }

  lemma StrandedIn(reached: Closed) returns (s: Lin)
    ensures reached(s) && Idle(s) && !s.armed && !s.queued && s.handler == Resting
  {
    s := Overtaken(reached);
    s := Onward(reached, s, FlushLock);
    s := Onward(reached, s, FlushBody);
    s := Onward(reached, s, FlushUnlock);
    s := AddOne(reached, s);
    s := Onward(reached, s, TimerFires);
    s := Onward(reached, s, HandlerReturns);
  }

  /** It can happen: a flush overtakes a running handler, the handler unlocks, a packet
      comes, and the handler's thread does not run again for the twenty milliseconds. */
  lemma Stranded() returns (s: Lin)
    ensures Reachable(s) && Idle(s) && !s.armed && !s.queued && s.handler == Resting
  {
    ReachableIsClosed();
    s := StrandedIn(Reached());
  }

  /** A stranded packet waits for the next add or flush, and no longer. */
  lemma NextCallCovers(s: Lin, e: Event)
    requires Reachable(s) && s.dropped && Enabled(s, e)
    ensures !Step(s, e).dropped <==> e == AddFull || e == AddArm || e == FlushCancel || e == FlushBody
    ensures !Step(s, e).dropped ==> Covered(Step(s, e)) || Step(s, e).count == 0
  {
    ReachableInv(s);
  }
}
