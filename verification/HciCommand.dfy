/** One HCI command at a time: hci_command() on the control or work-queue thread,
    note_command_result() on the forwarding thread, and whatever the controller answers.

    Each store of hci_command() is a step of its own; note_command_result() is one. */
module HciCommand {
  import opened Wire

  const EVT_COMMAND_COMPLETE: byte := 0x0E
  const EVT_COMMAND_STATUS: byte := 0x0F
  const EIO := 5
  const ETIMEDOUT := 116
  const ENOBUFS := 105

  datatype Answer = NoAnswer | Answer(opcode: uint16, status: byte)

  /** What note_command_result reads out of an event. */
  function Answered(evt: seq<byte>): (a: Answer)
    requires |evt| >= 2
  {
    if evt[0] == EVT_COMMAND_COMPLETE && |evt| >= 6 then Answer(Le16(evt[3], evt[4]), evt[5])
    else if evt[0] == EVT_COMMAND_STATUS && |evt| >= 6 then Answer(Le16(evt[4], evt[5]), evt[2])
    else NoAnswer
  }

  /** HCI Command Complete, section 7.7.14 of Bluetooth Core Vol 4 Part E: event code,
      length, Num_HCI_Command_Packets, opcode, return parameters led by a status. */
  function CommandComplete(credits: byte, opcode: uint16, ret: seq<byte>): (evt: seq<byte>)
    requires 1 <= |ret| <= 252
  {
    [EVT_COMMAND_COMPLETE, 3 + |ret|, credits] + ToLe(opcode, 2) + ret
  }

  /** HCI Command Status, section 7.7.15: event code, length, status, credits, opcode. */
  function CommandStatus(status: byte, credits: byte, opcode: uint16): (evt: seq<byte>) {
    [EVT_COMMAND_STATUS, 4, status, credits] + ToLe(opcode, 2)
  }

  /** Both kinds of answer are read at the right offsets. */
  lemma AnswersAreRead(credits: byte, opcode: uint16, status: byte, more: seq<byte>)
    requires |more| <= 251
    ensures Answered(CommandComplete(credits, opcode, [status] + more)) == Answer(opcode, status)
    ensures Answered(CommandStatus(status, credits, opcode)) == Answer(opcode, status)
  {
    ToLe16(opcode);
    var c := CommandComplete(credits, opcode, [status] + more);
    assert c[3] == ToLe(opcode, 2)[0] && c[4] == ToLe(opcode, 2)[1] && c[5] == status;
    var s := CommandStatus(status, credits, opcode);
    assert s[4] == ToLe(opcode, 2)[0] && s[5] == ToLe(opcode, 2)[1];
  }

  /** Where the holder of cmd_lock is. */
  datatype Pc =
    | Idle          // nobody holds it
    | Locked        // about to get a buffer, then to reset cmd_done
    | SemReset      // about to set pending_status to 0xFF
    | Cleared       // about to set pending_opcode
    | Armed         // about to call bt_send
    | Waiting       // in k_sem_take
    | Woken         // took cmd_done
    | Failed(err: int)

  /** An answer as it was consumed, with the command of history it answered. */
  datatype Consumed = Consumed(opcode: uint16, status: byte, id: nat)

  datatype Returned = Nothing | Returned(opcode: uint16, err: int, status: byte, id: nat, mark: nat)

  datatype Hci = Hci(
    pc: Pc,
    opcode: uint16,            // the holder's argument
    done: bool,                // cmd_done
    pending: uint16,           // pending_opcode
    status: byte,              // pending_status
    timeouts: uint32,          // command_timeouts
    sent: seq<uint16>,         // history: every command handed to the controller
    consumed: seq<Consumed>,   // history: every answer the forwarding thread read
    mark: nat,                 // history: how many had been read when pending was set
    hit: nat,                  // history: which of them set cmd_done last
    last: Returned)            // history: the last return of hci_command

  datatype Event =
    | Lock(opcode: uint16)
    | NoBuffer                         // none free within a second
    | ResetSem | ClearStatus | SetPending
    | Send(ok: bool, err: int)
    | Wake | TimeOut
    | Return
    | Reads(evt: seq<byte>, id: nat)   // note_command_result on an answer to command `id`

  function Init(): (s: Hci) {
    Hci(Idle, 0, false, 0, 0, 0, [], [], 0, 0, Nothing)
  }

  /** Command `id` was sent and its answer has not been read. */
  ghost predicate Unanswered(s: Hci, id: nat) {
    id < |s.sent| && forall i :: 0 <= i < |s.consumed| ==> s.consumed[i].id != id
  }

  ghost predicate Enabled(s: Hci, e: Event) {
    match e
    case Lock(opcode) => s.pc == Idle && opcode != 0
    case NoBuffer => s.pc == Locked
    case ResetSem => s.pc == Locked
    case ClearStatus => s.pc == SemReset
    case SetPending => s.pc == Cleared
    case Send(ok, err) => s.pc == Armed && (ok || err < 0)
    case Wake => s.pc == Waiting && s.done
    case TimeOut => s.pc == Waiting && !s.done
    case Return => s.pc == Woken || s.pc.Failed?
    case Reads(evt, id) =>
      |evt| >= 2 && (Answered(evt) == NoAnswer || Answered(evt).opcode == 0
                     || (Unanswered(s, id) && Answered(evt).opcode == s.sent[id]))
  }

  /** note_command_result: takes the answer only when it is to the command pending. */
  function NoteResult(s: Hci, evt: seq<byte>, id: nat): (r: Hci)
    requires |evt| >= 2
  {
    var a := Answered(evt);
    if a == NoAnswer || a.opcode == 0 then s
    else
      var s' := s.(consumed := s.consumed + [Consumed(a.opcode, a.status, id)]);
      if a.opcode != s.pending then s'
      else s'.(status := a.status, pending := 0, done := true, hit := |s.consumed|)
  }

  /** What hci_command returns, from where its wait left it. */
  function Result(s: Hci): (err: int) {
    if s.pc.Failed? then s.pc.err else if s.status != 0 then -EIO else 0
  }

  function Step(s: Hci, e: Event): (r: Hci)
    requires e.Reads? ==> |e.evt| >= 2
  {
    match e
    case Lock(opcode) => s.(pc := Locked, opcode := opcode)
    case NoBuffer => s.(pc := Idle, last := Returned(s.opcode, -ENOBUFS, s.status, 0, s.mark))
    case ResetSem => s.(pc := SemReset, done := false)
    case ClearStatus => s.(pc := Cleared, status := 0xFF)
    case SetPending => s.(pc := Armed, pending := s.opcode, mark := |s.consumed|)
    case Send(ok, err) => if ok then s.(pc := Waiting, sent := s.sent + [s.opcode]) else s.(pc := Failed(err))
    case Wake => s.(pc := Woken, done := false)
    case TimeOut => s.(pc := Failed(-ETIMEDOUT), timeouts := Add32(s.timeouts, 1))
    case Return =>
      s.(pc := Idle, pending := 0,
         last := Returned(s.opcode, Result(s), s.status, if s.sent == [] then 0 else |s.sent| - 1, s.mark))
    case Reads(evt, id) => NoteResult(s, evt, id)
  }

  /** `es` is a run from `s` to `t`. */
  ghost predicate Leads(s: Hci, es: seq<Event>, t: Hci)
    decreases |es|
  {
    if es == [] then s == t else Enabled(s, es[0]) && Leads(Step(s, es[0]), es[1..], t)
  }

  /** A set cmd_done means the command was taken off the books and pending_status is the
      answer that did it. */
  ghost predicate DoneMeansAnswered(s: Hci) {
    s.done ==> s.pending == 0 && s.hit < |s.consumed| && s.consumed[s.hit].status == s.status
  }

  /** While a command waits, an answer that woke it was read after it was armed and
      carries its opcode. */
  ghost predicate OwnAnswer(s: Hci) {
    s.pc.Armed? || s.pc.Waiting? || s.pc.Woken? ==>
      && s.mark <= |s.consumed|
      && (s.done || s.pc == Woken ==>
            && s.mark <= s.hit < |s.consumed|
            && s.consumed[s.hit].opcode == s.opcode
            && s.consumed[s.hit].status == s.status)
  }

  ghost predicate Quiet(s: Hci) {
    && (s.pending != 0 ==> s.pending == s.opcode && (s.pc.Armed? || s.pc.Waiting? || s.pc.Failed?))
    && (s.pc.SemReset? || s.pc.Cleared? ==> !s.done)
    && (s.pc.Woken? ==> s.pending == 0 && !s.done)
    && (s.pc.Cleared? ==> s.status == 0xFF)
    && (s.pending != 0 ==> s.status == 0xFF)
    && ((s.pc.Armed? || s.pc.Waiting?) && s.pending == 0 ==> s.done)
    && (s.pc.Waiting? ==> s.sent != [] && s.sent[|s.sent| - 1] == s.opcode)
    && (s.pc.Woken? ==> s.sent != [])
    && (s.pc != Idle ==> s.opcode != 0)
    && (s.pc.Failed? ==> s.pc.err != 0)
  }

  /** Every answer read was to a command that had been sent under that opcode. */
  ghost predicate Honest(s: Hci) {
    forall i :: 0 <= i < |s.consumed| ==>
      s.consumed[i].id < |s.sent| && s.consumed[i].opcode == s.sent[s.consumed[i].id]
  }

  /** What the last return promised. */
  ghost predicate LastIsSound(s: Hci) {
    s.last.Returned? && s.last.err == 0 ==>
      exists i ::
        && s.last.mark <= i < |s.consumed|
        && s.consumed[i].opcode == s.last.opcode && s.consumed[i].status == 0
  }

  ghost predicate Inv(s: Hci) {
    DoneMeansAnswered(s) && OwnAnswer(s) && Quiet(s) && Honest(s) && LastIsSound(s)
  }

  lemma StepKeepsLast(s: Hci, e: Event)
    requires Inv(s) && Enabled(s, e)
    ensures LastIsSound(Step(s, e))
  {
    var r := Step(s, e);
    if e == Return && r.last.err == 0 {
      assert s.pc == Woken;
      assert r.consumed[s.hit].opcode == r.last.opcode && r.consumed[s.hit].status == 0;
    } else if s.last.Returned? && s.last.err == 0 && e != Return {
      var i :| s.last.mark <= i < |s.consumed| && s.consumed[i].opcode == s.last.opcode && s.consumed[i].status == 0;
      assert r.consumed[i] == s.consumed[i];
    }
  }

  lemma StepKeeps(s: Hci, e: Event)
    requires Inv(s) && Enabled(s, e)
    ensures Inv(Step(s, e))
  {
    StepKeepsLast(s, e);
  }

  lemma {:induction false} RunKeeps(s: Hci, es: seq<Event>, t: Hci)
    requires Inv(s) && Leads(s, es, t)
    ensures Inv(t)
    decreases |es|
  {
    if es != [] {
      StepKeeps(s, es[0]);
      RunKeeps(Step(s, es[0]), es[1..], t);
    }
  }

  ghost predicate Reachable(s: Hci) {
    exists es :: Leads(Init(), es, s)
  }

  lemma ReachableInv(s: Hci)
    requires Reachable(s)
    ensures Inv(s)
  {
    var es :| Leads(Init(), es, s);
    RunKeeps(Init(), es, s);
  }

  /** hci_command returns 0 only if an answer with its own opcode and status 0 was read
      after it set pending_opcode. */
  lemma SuccessIsAnswered(s: Hci)
    requires Reachable(s) && s.last.Returned? && s.last.err == 0
    ensures exists i ::
      && s.last.mark <= i < |s.consumed|
      && s.consumed[i].opcode == s.last.opcode && s.consumed[i].status == 0
  {
    ReachableInv(s);
  }

  /** In every reachable state a set cmd_done belongs to an answer already booked. */
  lemma DoneIsBooked(s: Hci)
    requires Reachable(s) && s.done
    ensures s.pending == 0
    ensures s.hit < |s.consumed| && s.consumed[s.hit].status == s.status
  {
    ReachableInv(s);
  }

  /** A late answer to some other command wakes nobody. */
  lemma OtherOpcodeIgnored(s: Hci, evt: seq<byte>, id: nat)
    requires Reachable(s) && Enabled(s, Reads(evt, id))
    requires s.pc.Waiting? && Answered(evt) != NoAnswer && Answered(evt).opcode != s.opcode
    ensures var r := Step(s, Reads(evt, id));
      r.done == s.done && r.pending == s.pending && r.status == s.status && r.pc == s.pc
  {
    ReachableInv(s);
  }

  /** Answers are matched by opcode alone. A waiting command can be completed by the late
      answer to an earlier one exactly when an earlier command of the same opcode went
      unanswered: with none, whatever wakes it is the answer to itself ... */
  lemma CleanMatchIsOwn(s: Hci, evt: seq<byte>, id: nat)
    requires Reachable(s) && s.pc.Waiting? && s.pending != 0
    requires Enabled(s, Reads(evt, id)) && Step(s, Reads(evt, id)).done
    requires forall j :: 0 <= j < |s.sent| - 1 && s.sent[j] == s.opcode ==> !Unanswered(s, j)
    ensures id == |s.sent| - 1
  {
    ReachableInv(s);
    assert Answered(evt).opcode == s.pending;
    assert s.sent[id] == s.opcode && Unanswered(s, id);
  }

  /** ... and with one, the stale answer can be read next and is taken for this one's; */
  lemma StaleMatchHappens(s: Hci, j: nat)
    requires Reachable(s) && s.pc.Waiting? && s.pending != 0
    requires j < |s.sent| - 1 && s.sent[j] == s.opcode && Unanswered(s, j)
    ensures var evt := CommandStatus(0, 1, s.opcode);
      && Answered(evt) == Answer(s.opcode, 0) && Enabled(s, Reads(evt, j))
      && Step(s, Reads(evt, j)) == s.(consumed := s.consumed + [Consumed(s.opcode, 0, j)],
                                      status := 0, pending := 0, done := true, hit := |s.consumed|)
  {
    ReachableInv(s);
    AnswersAreRead(1, s.opcode, 0, []);
  }

  /** which makes hci_command return 0. */
  lemma WokenSucceeds(s: Hci)
    requires s.pc.Waiting? && s.done && s.status == 0
    ensures Enabled(s, Wake) && Enabled(Step(s, Wake), Return)
    ensures var r := Step(Step(s, Wake), Return);
      r.last.Returned? && r.last.err == 0 && r.last.opcode == s.opcode
  {
  }

  /** Whatever status the controller answers with, of either kind, reading the answer
      wakes the waiter at once: hci_command returns 0 for status 0 and -EIO for any other,
      with that status. */
  lemma AnswerCompletes(s: Hci, evt: seq<byte>, status: byte, credits: byte, more: seq<byte>, id: nat)
    requires Reachable(s) && s.pc.Waiting? && s.pending != 0
    requires |more| <= 251
    requires evt == CommandComplete(credits, s.opcode, [status] + more) || evt == CommandStatus(status, credits, s.opcode)
    requires Enabled(s, Reads(evt, id))
    ensures var r := Step(s, Reads(evt, id));
      && r.done && r.pending == 0 && r.status == status
      && Enabled(r, Wake) && Enabled(Step(r, Wake), Return)
      && var t := Step(Step(r, Wake), Return);
         && t.pc == Idle && !t.done && t.pending == 0
         && t.last.Returned? && t.last.opcode == s.opcode && t.last.status == status
         && t.last.err == (if status == 0 then 0 else -5)
  {
    ReachableInv(s);
    AnswersAreRead(credits, s.opcode, status, more);
  }

  /** Until then the status is 0xFF, and two seconds without an answer give -ETIMEDOUT
      with it and count one timeout. */
  lemma SilenceTimesOut(s: Hci)
    requires Reachable(s) && s.pc.Waiting? && !s.done
    ensures s.pending == s.opcode && s.status == 0xFF
    ensures Enabled(s, TimeOut) && Enabled(Step(s, TimeOut), Return)
    ensures var t := Step(Step(s, TimeOut), Return);
      && t.pc == Idle && t.pending == 0 && t.timeouts == Add32(s.timeouts, 1)
      && t.last.Returned? && t.last.opcode == s.opcode && t.last.status == 0xFF && t.last.err == -116
  {
    ReachableInv(s);
  }

  /** The waiter wakes exactly when an answer under its opcode has been read since the
      command was armed. */
  lemma WakesExactly(s: Hci, e: Event)
    requires Reachable(s) && s.pc.Waiting? && !s.done && Enabled(s, e)
    ensures Step(s, e).done <==> e.Reads? && Answered(e.evt) != NoAnswer && Answered(e.evt).opcode == s.opcode
  {
    ReachableInv(s);
  }

  // ---- answers in order ----

  /** The FIFO: answers are read in the order their commands were sent. */
  ghost predicate InOrder(s: Hci) {
    forall i, j :: 0 <= i < j < |s.consumed| ==> s.consumed[i].id < s.consumed[j].id
  }

  ghost predicate Orderly(s: Hci, e: Event) {
    InOrder(s) && (Enabled(s, e) ==> InOrder(Step(s, e)))
  }

  /** A command behind a RESET whose answer has been read is never taken for answered by a
      stale answer, but by one to a command of its opcode sent since that RESET: so START,
      which begins with a RESET and gives up at the first failure, is answered its own. */
  lemma OwnBehindReset(s: Hci, evt: seq<byte>, id: nat, r: nat, i: nat)
    requires Reachable(s) && s.pc.Waiting? && s.pending != 0
    requires i < |s.consumed| && s.consumed[i].id == r
    requires Enabled(s, Reads(evt, id)) && Orderly(s, Reads(evt, id)) && Step(s, Reads(evt, id)).done
    requires forall j :: r < j < |s.sent| - 1 && s.sent[j] == s.opcode ==> !Unanswered(s, j)
    ensures id == |s.sent| - 1
  {
    ReachableInv(s);
    var t := Step(s, Reads(evt, id));
    assert Answered(evt).opcode == s.pending && Unanswered(s, id);
    assert t.consumed[i] == s.consumed[i] && t.consumed[|s.consumed|].id == id;
  }

  // ---- an answer taken for another's ----

  /** A set of states that holds the first one and everything a step leads to. */
  ghost predicate IsClosed(reached: Hci -> bool) {
    reached(Init()) && forall s, e :: reached(s) && Enabled(s, e) ==> reached(Step(s, e))
  }

  type Closed = reached: Hci -> bool | IsClosed(reached) ghost witness (s: Hci) => true

  ghost function Reached(): Hci -> bool {
    s => Reachable(s)
  }

  lemma {:induction false} RunAppend(s: Hci, es: seq<Event>, t: Hci, e: Event)
    requires Leads(s, es, t) && Enabled(t, e)
    ensures Leads(s, es + [e], Step(t, e))
    decreases |es|
  {
    if es == [] {
      assert [e][1..] == [] && es + [e] == [e];
      assert Leads(Step(s, e), [], Step(s, e));
    } else {
      assert (es + [e])[1..] == es[1..] + [e];
      RunAppend(Step(s, es[0]), es[1..], t, e);
    }
  }

  lemma ReachableIsClosed()
    ensures IsClosed(Reached())
  {
    assert Leads(Init(), [], Init());
    forall s, e | Reachable(s) && Enabled(s, e) ensures Reachable(Step(s, e)) {
      var es :| Leads(Init(), es, s);
      RunAppend(Init(), es, s, e);
    }
  }

  lemma Onward(reached: Closed, s: Hci, e: Event) returns (r: Hci)
    requires reached(s) && Enabled(s, e)
    ensures r == Step(s, e) && reached(r)
  {
    r := Step(s, e);
  }

  /** One command on its way. */
  lemma SendsOne(reached: Closed, s: Hci, op: uint16) returns (r: Hci)
    requires reached(s) && s.pc == Idle && op != 0
    ensures reached(r) && r.pc == Waiting && r.opcode == op && r.pending == op && !r.done
    ensures r.sent == s.sent + [op] && r.consumed == s.consumed
  {
    r := Onward(reached, s, Lock(op));
    r := Onward(reached, r, ResetSem);
    r := Onward(reached, r, ClearStatus);
    r := Onward(reached, r, SetPending);
    r := Onward(reached, r, Send(true, 0));
  }

  /** `op` was given up on, is sent again, and neither answer has been read. */
  ghost predicate SentTwice(s: Hci, op: uint16) {
    s.pc == Waiting && s.pending == op && s.opcode == op && !s.done && s.sent == [op, op] && s.consumed == []
  }

  lemma SendsTwice(reached: Closed, op: uint16) returns (s: Hci)
    requires op != 0
    ensures reached(s) && SentTwice(s, op)
  {
    s := SendsOne(reached, Init(), op);
    s := Onward(reached, s, TimeOut);
    s := Onward(reached, s, Return);
    s := SendsOne(reached, s, op);
  }

  /** It can happen, with answers in order: a command times out, the next of its opcode is
      sent, and both answers are still to come. */
  lemma StaleIsReachable(op: uint16) returns (s: Hci)
    requires op != 0
    ensures Reachable(s) && SentTwice(s, op) && InOrder(s) && Unanswered(s, 0) && Unanswered(s, 1)
  {
    ReachableIsClosed();
    s := SendsTwice(Reached(), op);
  }

  /** And then the first one's answer, read next, makes the second hci_command return 0
      while its own answer, which may be a refusal, is still to come. */
  lemma StaleSucceeds(s: Hci, op: uint16) returns (t: Hci)
    requires SentTwice(s, op) && op != 0
    ensures var evt := CommandStatus(0, 1, op);
      && Enabled(s, Reads(evt, 0)) && Orderly(s, Reads(evt, 0))
      && t == Step(Step(Step(s, Reads(evt, 0)), Wake), Return)
    ensures t.last.Returned? && t.last.err == 0 && t.last.opcode == op && t.last.id == 1 && Unanswered(t, 1)
  {
    var evt := CommandStatus(0, 1, op);
    AnswersAreRead(1, op, 0, []);
    assert Unanswered(s, 0);
    var read := Step(s, Reads(evt, 0));
    assert read.consumed == [Consumed(op, 0, 0)];
    t := Step(Step(read, Wake), Return);
  }

  /** The four static variables in their own form; each method is one step above. */
  class CommandPort {
    var pc: Pc
    var opcode: uint16
    var cmdDone: bool
    var pendingOpcode: uint16
    var pendingStatus: byte
    var commandTimeouts: uint32
    ghost var sent: seq<uint16>
    ghost var consumed: seq<Consumed>
    ghost var mark: nat
    ghost var hit: nat
    ghost var last: Returned

    ghost function State(): (s: Hci)
      reads this
    {
      Hci(pc, opcode, cmdDone, pendingOpcode, pendingStatus, commandTimeouts, sent, consumed, mark, hit, last)
    }

    constructor ()
      ensures State() == Init()
    {
      pc, opcode, cmdDone, pendingOpcode, pendingStatus, commandTimeouts := Idle, 0, false, 0, 0, 0;
      sent, consumed, mark, hit, last := [], [], 0, 0, Nothing;
    }

    /** k_mutex_lock */
    method LockFor(op: uint16)
      requires Enabled(State(), Lock(op))
      modifies this`pc, this`opcode
      ensures State() == Step(old(State()), Lock(op))
    {
      pc, opcode := Locked, op;
    }

    /** bt_buf_get_tx, and the early return when it gives no buffer. */
    method GetBuffer(free: bool) returns (err: int)
      requires pc == Locked
      modifies this`pc, this`last
      ensures err == if free then 0 else -105
      ensures State() == if free then old(State()) else Step(old(State()), NoBuffer)
    {
      if free {
        return 0;
      }
      pc, last := Idle, Returned(opcode, -ENOBUFS, pendingStatus, 0, mark);
      err := -ENOBUFS;
    }

    /** k_sem_reset(&cmd_done) */
    method ResetDone()
      requires pc == Locked
      modifies this`pc, this`cmdDone
      ensures State() == Step(old(State()), ResetSem)
    {
      pc, cmdDone := SemReset, false;
    }

    method ClearPendingStatus()
      requires pc == SemReset
      modifies this`pc, this`pendingStatus
      ensures State() == Step(old(State()), ClearStatus)
    {
      pc, pendingStatus := Cleared, 0xFF;
    }

    method SetPendingOpcode()
      requires pc == Cleared
      modifies this`pc, this`pendingOpcode, this`mark
      ensures State() == Step(old(State()), SetPending)
    {
      pc, pendingOpcode, mark := Armed, opcode, |consumed|;
    }

    method SendBuffer(ok: bool, err: int)
      requires Enabled(State(), Send(ok, err))
      modifies this`pc, this`sent
      ensures State() == Step(old(State()), Send(ok, err))
    {
      if !ok {
        pc := Failed(err);
        return;
      }
      pc, sent := Waiting, sent + [opcode];
    }

    /** k_sem_take with its two-second timeout. */
    method Take()
      requires pc == Waiting
      modifies this`pc, this`cmdDone, this`commandTimeouts
      ensures State() == Step(old(State()), if old(cmdDone) then Wake else TimeOut)
    {
      if cmdDone {
        pc, cmdDone := Woken, false;
      } else {
        pc, commandTimeouts := Failed(-ETIMEDOUT), Add32(commandTimeouts, 1);
      }
    }

    /** The status read, the clean-up and the unlock. */
    method Conclude() returns (err: int, status: byte)
      requires pc == Woken || pc.Failed?
      modifies this`pc, this`pendingOpcode, this`last
      ensures State() == Step(old(State()), Return)
      ensures err == Result(old(State())) && status == old(pendingStatus)
    {
      err := if pc.Failed? then pc.err else if pendingStatus != 0 then -EIO else 0;
      status := pendingStatus;
      last := Returned(opcode, err, pendingStatus, if sent == [] then 0 else |sent| - 1, mark);
      pc, pendingOpcode := Idle, 0;
    }

    method NoteCommandResult(evt: seq<byte>, ghost id: nat)
      requires |evt| >= 2
      modifies this`pendingStatus, this`pendingOpcode, this`cmdDone, this`consumed, this`hit
      ensures State() == NoteResult(old(State()), evt, id)
    {
      var op: uint16, status: byte;
      if evt[0] == EVT_COMMAND_COMPLETE && |evt| >= 6 {
        op, status := Le16(evt[3], evt[4]), evt[5];
      } else if evt[0] == EVT_COMMAND_STATUS && |evt| >= 6 {
        status, op := evt[2], Le16(evt[4], evt[5]);
      } else {
        return;
      }
      if op == 0 {
        return;
      }
      consumed := consumed + [Consumed(op, status, id)];
      if op != pendingOpcode {
        return;
      }
      hit := |consumed| - 1;
      pendingStatus := status;
      pendingOpcode := 0;
      cmdDone := true;
    }
  }
}
