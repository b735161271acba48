/** The slot for a periodic sync: sync_count against what the controller holds, across
    the control thread (START, STOP), the sync worker, the forwarding thread and the
    controller. Commands go into the controller's input and come out as answers in the
    one event FIFO, in order and between the controller's other events; an answer is
    taken for the pending command's if the opcode is the same.

    A handler is one step. The worker's check, its command and its count are three. */
module PeriodicSync {
  const MAX_SYNCS := 1

  /** START's commands behind its RESET: eight, and more with keys or a filter. */
  const SETUPS := 8

  datatype Cmd = Reset | SetUp(i: nat) | Create

  /** What the controller puts in the event FIFO. */
  datatype Ev = Established(ok: bool) | SyncLost | Answer(cmd: Cmd, ok: bool)

  /** Where the holder of cmd_lock is in hci_command(). */
  datatype Wait = Free | For(cmd: Cmd) | Got(cmd: Cmd, ok: bool)

  /** Where the control thread is. STOP has cleared its flags in `Stopping`; START has made
      `i` of its later commands in `Between(i)`. */
  datatype Phase = Resting | Stopping | Resetting(forStart: bool) | Between(i: nat) | SettingUp(i: nat)

  /** The controller's syncs, being made and made. */
  datatype Radio = Radio(pending: nat, live: nat)

  /** History of the scan: syncs accepted less those counted; failures and losses that
      freed nothing, and syncs a RESET took from under the scan. History since the last
      RESET that ran: syncs accepted, and their failures and losses read. */
  datatype Past = Past(uncounted: int, leaked: nat, taken: nat, ended: nat)

  datatype Sync = Sync(
    running: bool,
    periodic: bool,
    syncCount: nat,
    phase: Phase,
    wait: Wait,
    checked: bool,       // the worker passed its check and has not sent yet
    owed: bool,          // its command returned 0 and is not counted yet
    input: seq<Cmd>,     // sent and not run
    radio: Radio,
    before: seq<Ev>,     // the event FIFO up to the last RESET's answer
    after: seq<Ev>,      // and behind it
    past: Past)

  datatype Event =
    | StartSends(ok: bool)
    | StopBegins | StopSends(ok: bool)
    | SetUpSends(ok: bool)
    | ScanStarted
    | SetPeriodic(on: bool)
    | WorkerChecks | WorkerSends(ok: bool) | WorkerCounts
    | Wakes                      // k_sem_take() returned, and so does hci_command()
    | TimesOut                   // two seconds without an answer
    | Runs(ok: bool)             // the controller runs the next command
    | Reads                      // the forwarding thread reads the next event
    | Resolve(ok: bool) | Lose   // of its own accord

  function Init(): (s: Sync) {
    Sync(false, false, 0, Resting, Free, false, false, [], Radio(0, 0), [], [], Past(0, 0, 0, 0))
  }

  predicate Frees(e: Ev) {
    e == SyncLost || e == Established(false)
  }

  /** Failures and losses among queued events. */
  function Unread(es: seq<Ev>): (n: nat)
    ensures es == [] ==> n == 0
  {
    multiset(es)[SyncLost] + multiset(es)[Established(false)]
  }

  /** What sync_count should stand for: syncs held, and failures and losses unread. */
  function Held(s: Sync): (n: nat) {
    s.radio.pending + s.radio.live + Unread(s.before) + Unread(s.after)
  }

  predicate WorkerWaits(s: Sync) {
    !s.wait.Free? && s.wait.cmd == Create
  }

  predicate Enabled(s: Sync, e: Event) {
    match e
    case StartSends(_) => s.phase == Resting && s.wait == Free
    case StopBegins => s.phase == Resting
    case StopSends(_) => s.phase == Stopping && s.wait == Free
    case SetUpSends(_) => s.phase.Between? && s.phase.i < SETUPS && s.wait == Free
    case ScanStarted => s.phase == Between(SETUPS)
    case SetPeriodic(_) => true
    case WorkerChecks =>
      !s.checked && !s.owed && !WorkerWaits(s) && s.running && s.periodic && s.syncCount < MAX_SYNCS
    case WorkerSends(_) => s.checked && s.wait == Free
    case WorkerCounts => s.owed
    case Wakes => s.wait.Got?
    case TimesOut => s.wait.For?
    case Runs(ok) =>
      && s.input != []
      && (s.input[0] == Reset ==> ok)
      && (s.input[0] == Create && ok ==> s.radio.pending + s.radio.live < MAX_SYNCS)
    case Reads => s.before != [] || s.after != []
    case Resolve(_) => s.radio.pending > 0
    case Lose => s.radio.live > 0
  }

  /** A command into the controller's input. */
  function Sends(s: Sync, c: Cmd, phase: Phase): (r: Sync) {
    s.(phase := phase, wait := For(c), checked := s.checked && c != Create, input := s.input + [c])
  }

  /** The control thread behind its command: on with it, or back to the host. */
  function Onwards(phase: Phase, c: Cmd, ok: bool): (next: Phase) {
    match c
    case Reset => if ok && phase == Resetting(true) then Between(0) else Resting
    case SetUp(i) => if ok then Between(i + 1) else Resting
    case Create => phase
  }

  /** hci_command() returns: 0 if `ok`. */
  function Returns(s: Sync, c: Cmd, ok: bool): (r: Sync) {
    s.(wait := Free, phase := Onwards(s.phase, c, ok), owed := if c == Create then ok else s.owed)
  }

  /** The controller runs a RESET: every sync goes. */
  function RunsReset(s: Sync): (r: Sync)
    requires s.input != []
  {
    s.(input := s.input[1..], radio := Radio(0, 0),
       before := s.before + s.after + [Answer(Reset, true)], after := [],
       past := Past(s.past.uncounted, s.past.leaked + s.radio.pending + s.radio.live, 0, 0))
  }

  function RunsCreate(s: Sync, ok: bool): (r: Sync)
    requires s.input != []
  {
    var one := if ok then 1 else 0;
    s.(input := s.input[1..], after := s.after + [Answer(Create, ok)],
       radio := Radio(s.radio.pending + one, s.radio.live),
       past := Past(s.past.uncounted + one, s.past.leaked, s.past.taken + one, s.past.ended))
  }

  function RunsNext(s: Sync, ok: bool): (r: Sync)
    requires s.input != []
  {
    if s.input[0] == Reset then RunsReset(s)
    else if s.input[0] == Create then RunsCreate(s, ok)
    else s.(input := s.input[1..], after := s.after + [Answer(s.input[0], ok)])
  }

  /** The head of the FIFO. */
  function Head(s: Sync): (e: Ev)
    requires s.before != [] || s.after != []
  {
    if s.before != [] then s.before[0] else s.after[0]
  }

  /** note_command_result(). */
  function Told(wait: Wait, e: Ev): (r: Wait) {
    if e.Answer? && wait == For(e.cmd) then Got(e.cmd, e.ok) else wait
  }

  /** What a failure or a loss read leaves of the history. */
  function PastRead(s: Sync, e: Ev): (p: Past) {
    Past(s.past.uncounted,
         s.past.leaked + if Frees(e) && s.running && s.syncCount == 0 then 1 else 0,
         s.past.taken,
         s.past.ended + if Frees(e) && s.before == [] then 1 else 0)
  }

  /** One event read: note_command_result(), and note_counts() if the scan runs. */
  function ReadsNext(s: Sync): (r: Sync)
    requires s.before != [] || s.after != []
  {
    var e := Head(s);
    s.(before := if s.before != [] then s.before[1..] else s.before,
       after := if s.before != [] then s.after else s.after[1..],
       wait := Told(s.wait, e),
       syncCount := if Frees(e) && s.running && s.syncCount > 0 then s.syncCount - 1 else s.syncCount,
       past := PastRead(s, e))
  }

  function Step(s: Sync, e: Event): (r: Sync)
    requires Enabled(s, e)
  {
    match e
    case StartSends(ok) => if ok then Sends(s, Reset, Resetting(true)) else s
    case StopBegins => s.(running := false, syncCount := 0, phase := Stopping)
    case StopSends(ok) => if ok then Sends(s, Reset, Resetting(false)) else s.(phase := Resting)
    case SetUpSends(ok) =>
      if ok then Sends(s, SetUp(s.phase.i), SettingUp(s.phase.i)) else s.(phase := Resting)
    case ScanStarted =>
      s.(syncCount := 0, running := true, phase := Resting,
         past := Past(Held(s), 0, s.past.taken, s.past.ended))
    case SetPeriodic(on) => s.(periodic := on)
    case WorkerChecks => s.(checked := true)
    case WorkerSends(ok) => if ok then Sends(s, Create, s.phase) else s.(checked := false)
    case WorkerCounts =>
      s.(owed := false, syncCount := s.syncCount + 1, past := s.past.(uncounted := s.past.uncounted - 1))
    case Wakes => Returns(s, s.wait.cmd, s.wait.ok)
    case TimesOut => Returns(s, s.wait.cmd, false)
    case Runs(ok) => RunsNext(s, ok)
    case Reads => ReadsNext(s)
    case Resolve(ok) =>
      s.(radio := Radio(s.radio.pending - 1, if ok then s.radio.live + 1 else s.radio.live),
         after := s.after + [Established(ok)])
    case Lose => s.(radio := s.radio.(live := s.radio.live - 1), after := s.after + [SyncLost])
  }

  /** Its command is answered with success and not counted. */
  predicate Uncounted(s: Sync) {
    s.owed || s.wait == Got(Create, true)
  }

  /** What a run keeps to: START only from a stopped scan; nothing read between a command's
      answer and its count; the later commands of START that are never given up on; no
      Create Sync given up on; and no STOP between the worker's check and its command. */
  datatype Rule = Rule(fromStopped: bool, atOnce: bool, kept: set<nat>, patient: bool, uncrossed: bool)

  const ANY := Rule(false, false, {}, false, false)

  predicate GivesUpOn(s: Sync, e: Event, c: Cmd) {
    e == TimesOut && s.wait == For(c)
  }

  predicate Allowed(rule: Rule, s: Sync, e: Event) {
    && Enabled(s, e)
    && (rule.fromStopped && e.StartSends? ==> !s.running)
    && (rule.atOnce && Uncounted(s) ==> e != Reads)
    && (forall i :: i in rule.kept ==> !GivesUpOn(s, e, SetUp(i)))
    && (rule.patient ==> !GivesUpOn(s, e, Create))
    && (rule.uncrossed && e == StopBegins ==> !s.checked)
  }

  /** `es` is a run from `s` to `t` that keeps to `rule`. */
  ghost predicate Leads(rule: Rule, s: Sync, es: seq<Event>, t: Sync)
    decreases |es|
  {
    if es == [] then s == t else Allowed(rule, s, es[0]) && Leads(rule, Step(s, es[0]), es[1..], t)
  }

  ghost predicate Reachable(rule: Rule, s: Sync) {
    exists es :: Leads(rule, Init(), es, s)
  }

  // ---- every run ----

  /** The worker is past its check and has not counted. */
  predicate Busy(s: Sync) {
    s.checked || s.owed || WorkerWaits(s)
  }

  /** One thread each: the control thread waits exactly in its phases of waiting, and the
      worker does one thing at a time. */
  ghost predicate Threads(s: Sync) {
    && (s.phase.Resetting? <==> !s.wait.Free? && s.wait.cmd == Reset)
    && (s.phase.SettingUp? <==> !s.wait.Free? && s.wait.cmd.SetUp?)
    && (s.phase.SettingUp? ==> s.wait.cmd == SetUp(s.phase.i) && s.phase.i < SETUPS)
    && (s.phase.Between? ==> s.phase.i <= SETUPS)
    && !(s.checked && s.owed) && !(WorkerWaits(s) && (s.checked || s.owed))
  }

  ghost predicate Range(s: Sync) {
    s.syncCount + (if Busy(s) then 1 else 0) <= MAX_SYNCS && s.radio.pending + s.radio.live <= MAX_SYNCS
  }

  ghost predicate Account(s: Sync) {
    && (s.running ==> s.syncCount + s.past.uncounted == Held(s) + s.past.leaked)
    && s.radio.pending + s.radio.live + Unread(s.after) + s.past.ended == s.past.taken
  }

  ghost predicate Inv(s: Sync) {
    Threads(s) && Range(s) && Account(s)
  }

  lemma UnreadAppend(a: seq<Ev>, b: seq<Ev>)
    ensures Unread(a + b) == Unread(a) + Unread(b)
  {
  }

  lemma UnreadPop(es: seq<Ev>)
    requires es != []
    ensures Unread(es) == (if Frees(es[0]) then 1 else 0) + Unread(es[1..])
  {
    assert es == [es[0]] + es[1..];
    UnreadAppend([es[0]], es[1..]);
  }

  lemma UnreadSnoc(es: seq<Ev>, e: Ev)
    ensures Unread(es + [e]) == Unread(es) + if Frees(e) then 1 else 0
  {
    UnreadAppend(es, [e]);
  }

  predicate Sending(e: Event) {
    e.StartSends? || e.StopBegins? || e.StopSends? || e.SetUpSends? || e.ScanStarted? || e.SetPeriodic?
  }

  predicate Working(e: Event) {
    e.WorkerChecks? || e.WorkerSends? || e.WorkerCounts?
  }

  predicate Returning(e: Event) {
    e.Wakes? || e.TimesOut?
  }

  lemma ThreadsSend(s: Sync, e: Event)
    requires Threads(s) && Enabled(s, e) && Sending(e)
    ensures Threads(Step(s, e))
  {
  }

  lemma ThreadsAnswer(s: Sync, e: Event)
    requires Threads(s) && Enabled(s, e) && (e.Reads? || e.Runs?)
    ensures Threads(Step(s, e))
  {
  }

  lemma ThreadsElse(s: Sync, e: Event)
    requires Threads(s) && Enabled(s, e) && !Sending(e) && !e.Reads? && !e.Runs?
    ensures Threads(Step(s, e))
  {
  }

  lemma ThreadsKept(s: Sync, e: Event)
    requires Threads(s) && Enabled(s, e)
    ensures Threads(Step(s, e))
  {
    if Sending(e) {
      ThreadsSend(s, e);
    } else if e.Reads? || e.Runs? {
      ThreadsAnswer(s, e);
    } else {
      ThreadsElse(s, e);
    }
  }

  lemma RangeKept(s: Sync, e: Event)
    requires Threads(s) && Range(s) && Enabled(s, e)
    ensures Range(Step(s, e))
  {
  }

  lemma AccountRead(s: Sync)
    requires Account(s) && Enabled(s, Reads)
    ensures Account(ReadsNext(s))
  {
    if s.before != [] {
      UnreadPop(s.before);
    } else {
      UnreadPop(s.after);
    }
  }

  lemma AccountReset(s: Sync)
    requires Account(s) && s.input != []
    ensures Account(RunsReset(s))
  {
    UnreadAppend(s.before, s.after);
    UnreadSnoc(s.before + s.after, Answer(Reset, true));
  }

  lemma AccountRun(s: Sync, ok: bool)
    requires Account(s) && Enabled(s, Runs(ok))
    ensures Account(RunsNext(s, ok))
  {
    if s.input[0] == Reset {
      AccountReset(s);
    } else {
      UnreadSnoc(s.after, Answer(s.input[0], ok));
    }
  }

  lemma AccountRadio(s: Sync, e: Event)
    requires Account(s) && Enabled(s, e) && (e.Resolve? || e.Lose?)
    ensures Account(Step(s, e))
  {
    UnreadSnoc(s.after, if e.Lose? then SyncLost else Established(e.ok));
  }

  lemma AccountSend(s: Sync, e: Event)
    requires Account(s) && Enabled(s, e) && Sending(e)
    ensures Account(Step(s, e))
  {
  }

  lemma AccountElse(s: Sync, e: Event)
    requires Account(s) && Enabled(s, e) && (Working(e) || Returning(e))
    ensures Account(Step(s, e))
  {
  }

  lemma StepKeeps(s: Sync, e: Event)
    requires Inv(s) && Enabled(s, e)
    ensures Inv(Step(s, e))
  {
    ThreadsKept(s, e);
    RangeKept(s, e);
    match e
    case Reads => AccountRead(s);
    case Runs(ok) => AccountRun(s, ok);
    case Resolve(_) => AccountRadio(s, e);
    case Lose => AccountRadio(s, e);
    case _ =>
      if Sending(e) {
        AccountSend(s, e);
      } else {
        AccountElse(s, e);
      }
  }

  lemma {:induction false} RunKeeps(rule: Rule, s: Sync, es: seq<Event>, t: Sync)
    requires Inv(s) && Leads(rule, s, es, t)
    ensures Inv(t)
    decreases |es|
  {
    if es != [] {
      StepKeeps(s, es[0]);
      RunKeeps(rule, Step(s, es[0]), es[1..], t);
    }
  }

  lemma ReachableInv(rule: Rule, s: Sync)
    requires Reachable(rule, s)
    ensures Inv(s)
  {
    var es :| Leads(rule, Init(), es, s);
    RunKeeps(rule, Init(), es, s);
  }

  /** In every run, restarts, timeouts and late answers included: sync_count stays within
      what the controller was built for, and while scanning it accounts for every sync
      held and every failure or loss unread, but for those uncounted and those leaked. */
  lemma SlotAccount(s: Sync)
    requires Reachable(ANY, s)
    ensures 0 <= s.syncCount <= 1
    ensures s.radio.pending + s.radio.live <= 1
    ensures s.running ==> s.syncCount + s.past.uncounted == Held(s) + s.past.leaked
  {
    ReachableInv(ANY, s);
  }

  /** The exact edge: while scanning, sync_count is what the controller holds and has to
      report if and only if as many are uncounted as leaked. */
  lemma AgreementExactly(s: Sync)
    requires Reachable(ANY, s) && s.running
    ensures s.syncCount == Held(s) <==> s.past.uncounted == s.past.leaked
  {
    ReachableInv(ANY, s);
  }

  /** When `uncounted` moves: a scan starts with what it inherits; from there it goes up
      exactly when the controller accepts a Create Sync, whoever still waits for it, and
      down exactly when the worker counts. */
  lemma UncountedExactly(s: Sync, e: Event)
    requires Reachable(ANY, s) && Enabled(s, e) && e != ScanStarted
    ensures Step(s, e).past.uncounted - s.past.uncounted ==
      if e == Runs(true) && s.input[0] == Create then 1 else if e == WorkerCounts then -1 else 0
  {
  }

  /** When more is leaked: exactly when a RESET takes a sync from under the scan, or when a
      failure or loss is read with sync_count at 0. */
  lemma LeakedExactly(s: Sync, e: Event)
    requires Reachable(ANY, s) && s.running && Enabled(s, e) && e != ScanStarted
    ensures Step(s, e).past.leaked > s.past.leaked <==>
      || (e.Runs? && s.input[0] == Reset && s.radio.pending + s.radio.live > 0)
      || (e == Reads && Frees(Head(s)) && s.syncCount == 0)
    ensures e == Reads && Frees(Head(s)) && s.syncCount == 0 ==> s.past.uncounted > s.past.leaked
  {
    ReachableInv(ANY, s);
    if e == Reads && s.before != [] {
      UnreadPop(s.before);
    } else if e == Reads {
      UnreadPop(s.after);
    }
  }

  /** A restart: agreement holds as a scan starts if and only if every sync accepted since
      the reset has had its failure or loss read, and no failure or loss from before the
      reset is still to come. */
  lemma RestartExactly(s: Sync)
    requires Reachable(ANY, s) && Enabled(s, ScanStarted)
    ensures var r := Step(s, ScanStarted);
      r.syncCount == Held(r) <==> s.past.taken == s.past.ended && Unread(s.before) == 0
  {
    ReachableInv(ANY, s);
  }

  // ---- the most that queued answers can still count ----

  function Counted(e: Ev, b: nat): (n: nat) {
    if e == Answer(Create, true) then b + 1 else if Frees(e) && b > 0 then b - 1 else b
  }

  /** sync_count after `es` is read from `b`, if every acceptance in it is counted. */
  function Most(es: seq<Ev>, b: nat): (n: nat) {
    if es == [] then b else Most(es[1..], Counted(es[0], b))
  }

  lemma {:induction false} MostMonotone(es: seq<Ev>, b: nat, c: nat)
    requires b <= c
    ensures Most(es, b) <= Most(es, c)
  {
    if es != [] {
      MostMonotone(es[1..], Counted(es[0], b), Counted(es[0], c));
    }
  }

  lemma {:induction false} MostSnoc(es: seq<Ev>, e: Ev, b: nat)
    ensures Most(es + [e], b) == Counted(e, Most(es, b))
  {
    if es == [] {
      assert Most([e][1..], Counted(e, b)) == Counted(e, b);
    } else {
      assert (es + [e])[1..] == es[1..] + [e];
      MostSnoc(es[1..], e, Counted(es[0], b));
    }
  }

  /** Each failure or loss takes one off; an acceptance is one, or has its own to come. */
  lemma {:induction false} MostLeast(es: seq<Ev>, b: nat)
    ensures b <= Most(es, b) + Unread(es)
    ensures Answer(Create, true) in es ==> Most(es, b) + Unread(es) >= 1
  {
    if es != [] {
      UnreadPop(es);
      MostLeast(es[1..], Counted(es[0], b));
      assert es == [es[0]] + es[1..];
    }
  }

  // ---- a command never given up on has one answer, and its caller waits for it ----

  /** Answers to `c` among queued events. */
  function Answers(c: Cmd, es: seq<Ev>): (n: nat)
    ensures es == [] ==> n == 0
  {
    multiset(es)[Answer(c, true)] + multiset(es)[Answer(c, false)]
  }

  lemma AnswersAppend(c: Cmd, a: seq<Ev>, b: seq<Ev>)
    ensures Answers(c, a + b) == Answers(c, a) + Answers(c, b)
  {
  }

  lemma AnswersSnoc(c: Cmd, es: seq<Ev>, e: Ev)
    ensures Answers(c, es + [e]) == Answers(c, es) + if e.Answer? && e.cmd == c then 1 else 0
  {
    AnswersAppend(c, es, [e]);
  }

  lemma AnswersPop(c: Cmd, es: seq<Ev>)
    requires es != []
    ensures Answers(c, es) == (if es[0].Answer? && es[0].cmd == c then 1 else 0) + Answers(c, es[1..])
  {
    assert es == [es[0]] + es[1..];
    AnswersAppend(c, [es[0]], es[1..]);
  }

  /** While it is waited for it is the last command sent, or has been run and its answer is
      behind every reset's; otherwise neither it nor an answer to it is left. */
  ghost predicate OnlyIn(c: Cmd, waited: bool, input: seq<Cmd>, before: seq<Ev>, after: seq<Ev>) {
    if waited && input != [] then
      input[|input| - 1] == c && c !in input[..|input| - 1] && Answers(c, before) + Answers(c, after) == 0
    else if waited then
      Answers(c, before) == 0 && Answers(c, after) == 1
    else
      c !in input && Answers(c, before) + Answers(c, after) == 0
  }

  ghost predicate Only(c: Cmd, s: Sync) {
    OnlyIn(c, s.wait == For(c), s.input, s.before, s.after)
  }

  /** Another command run leaves it last. */
  lemma OnlyRunOther(c: Cmd, waited: bool, input: seq<Cmd>, before: seq<Ev>, after: seq<Ev>)
    requires OnlyIn(c, waited, input, before, after) && input != [] && (waited ==> |input| > 1)
    ensures input[0] != c && OnlyIn(c, waited, input[1..], before, after)
  {
    if waited {
      assert input[0] == input[..|input| - 1][0];
      assert input[1..][..|input| - 2] == input[..|input| - 1][1..];
    }
  }

  lemma OnlyMoved(c: Cmd, waited: bool, input: seq<Cmd>, before: seq<Ev>, after: seq<Ev>)
    requires OnlyIn(c, waited, input, before, after) && c != Reset && (waited ==> input != [])
    ensures OnlyIn(c, waited, input, before + after + [Answer(Reset, true)], [])
  {
    AnswersAppend(c, before, after);
    AnswersSnoc(c, before + after, Answer(Reset, true));
  }

  lemma OnlyRunLast(c: Cmd, s: Sync, ok: bool)
    requires c != Reset && Only(c, s) && Enabled(s, Runs(ok)) && s.wait == For(c) && |s.input| == 1
    ensures Only(c, RunsNext(s, ok))
  {
    AnswersSnoc(c, s.after, Answer(c, ok));
  }

  lemma OnlyRun(c: Cmd, s: Sync, ok: bool)
    requires c != Reset && Only(c, s) && Enabled(s, Runs(ok))
    ensures Only(c, RunsNext(s, ok))
  {
    var waited := s.wait == For(c);
    if !waited || |s.input| > 1 {
      OnlyRunOther(c, waited, s.input, s.before, s.after);
      if s.input[0] == Reset {
        OnlyMoved(c, waited, s.input[1..], s.before, s.after);
      } else {
        AnswersSnoc(c, s.after, Answer(s.input[0], ok));
      }
    } else {
      OnlyRunLast(c, s, ok);
    }
  }

  lemma OnlyRead(c: Cmd, s: Sync)
    requires Only(c, s) && Enabled(s, Reads)
    ensures Only(c, ReadsNext(s))
    ensures Head(s).Answer? && Head(s).cmd == c ==> s.wait == For(c) && s.before == [] && s.input == []
  {
    if s.before != [] {
      AnswersPop(c, s.before);
    } else {
      AnswersPop(c, s.after);
    }
  }

  lemma OnlyElse(c: Cmd, s: Sync, e: Event)
    requires c != Reset && Threads(s) && Only(c, s) && Enabled(s, e) && !GivesUpOn(s, e, c) && !e.Runs? && !e.Reads?
    ensures Only(c, Step(s, e))
  {
    if e.Resolve? || e.Lose? {
      AnswersSnoc(c, s.after, if e.Lose? then SyncLost else Established(e.ok));
    }
  }

  lemma OnlyKept(c: Cmd, s: Sync, e: Event)
    requires c != Reset && Threads(s) && Only(c, s) && Enabled(s, e) && !GivesUpOn(s, e, c)
    ensures Only(c, Step(s, e))
  {
    match e
    case Runs(ok) => OnlyRun(c, s, ok);
    case Reads => OnlyRead(c, s);
    case _ => OnlyElse(c, s, e);
  }

  // ---- a scan starts behind its own reset ----

  /** START has the answer to its later command `j`, or the scan runs. */
  predicate Settled(j: nat, s: Sync) {
    || s.running
    || (s.phase.Between? && s.phase.i > j)
    || (s.phase.SettingUp? && (s.phase.i > j || (s.phase.i == j && s.wait.Got?)))
  }

  ghost predicate ResetLast(s: Sync) {
    s.before != [] ==> s.before[|s.before| - 1] == Answer(Reset, true)
  }

  /** What the scan has counted came behind every reset. */
  ghost predicate CountsLast(s: Sync) {
    && ResetLast(s)
    && (s.running && (s.syncCount > 0 || Uncounted(s)) ==> s.before == [] && Reset !in s.input)
  }

  ghost predicate Tidy(j: nat, s: Sync) {
    && (Settled(j, s) ==> s.before == [] && Reset !in s.input)
    && (s.running ==> s.phase == Resting)
    && ResetLast(s)
  }

  lemma TidyRead(j: nat, s: Sync)
    requires Threads(s) && Tidy(j, s) && Only(SetUp(j), s) && Enabled(s, Reads)
    ensures Tidy(j, ReadsNext(s))
  {
    OnlyRead(SetUp(j), s);
  }

  lemma TidyRun(j: nat, s: Sync, ok: bool)
    requires Tidy(j, s) && Enabled(s, Runs(ok))
    ensures Tidy(j, RunsNext(s, ok))
  {
    assert s.input[0] in s.input;
  }

  lemma TidyElse(j: nat, s: Sync, e: Event)
    requires Threads(s) && Tidy(j, s) && Enabled(s, e) && !e.Reads? && !e.Runs? && j < SETUPS
    requires e.StartSends? ==> !s.running
    ensures Tidy(j, Step(s, e))
  {
  }

  /** Counted, or about to be with nothing read in between. */
  function Owing(s: Sync): (n: nat) {
    (if s.running then s.syncCount else 0) + (if s.before == [] && Uncounted(s) then 1 else 0)
  }

  /** No more is counted, or will be for what is queued, than the controller holds. */
  ghost predicate Bounded(s: Sync) {
    Most(s.after, Owing(s)) <= s.radio.pending + s.radio.live
  }

  lemma BoundedReset(s: Sync)
    requires CountsLast(s) && s.input != [] && s.input[0] == Reset
    ensures Bounded(RunsReset(s))
  {
    assert Reset in s.input && |RunsReset(s).before| > 0;
  }

  lemma BoundedRun(s: Sync, ok: bool)
    requires CountsLast(s) && Bounded(s) && Enabled(s, Runs(ok))
    ensures Bounded(RunsNext(s, ok))
  {
    if s.input[0] == Reset {
      BoundedReset(s);
    } else {
      MostSnoc(s.after, Answer(s.input[0], ok), Owing(s));
    }
  }

  lemma BoundedRead(s: Sync)
    requires CountsLast(s) && Bounded(s) && Enabled(s, Reads) && !Uncounted(s)
    ensures Bounded(ReadsNext(s))
  {
    if s.before == [] {
      MostMonotone(s.after[1..], Owing(ReadsNext(s)), Counted(s.after[0], Owing(s)));
    }
  }

  lemma BoundedRadio(s: Sync, e: Event)
    requires Bounded(s) && Enabled(s, e) && (e.Resolve? || e.Lose?)
    ensures Bounded(Step(s, e))
  {
    MostSnoc(s.after, if e.Lose? then SyncLost else Established(e.ok), Owing(s));
  }

  lemma BoundedElse(s: Sync, e: Event)
    requires Threads(s) && Bounded(s) && Enabled(s, e) && (Sending(e) || Working(e) || Returning(e))
    requires CountsLast(s)
    ensures Bounded(Step(s, e))
  {
    MostMonotone(s.after, Owing(Step(s, e)), Owing(s));
  }

  lemma BoundedKept(rule: Rule, s: Sync, e: Event)
    requires rule.atOnce && Threads(s) && CountsLast(s) && Bounded(s) && Allowed(rule, s, e)
    ensures Bounded(Step(s, e))
  {
    match e
    case Runs(ok) => BoundedRun(s, ok);
    case Reads => BoundedRead(s);
    case Resolve(_) => BoundedRadio(s, e);
    case Lose => BoundedRadio(s, e);
    case _ => BoundedElse(s, e);
  }

  // ---- or every Create Sync is waited for ----

  /** What is counted or about to be was answered behind every reset, the one START sent
      included. */
  ghost predicate Fresh(s: Sync) {
    && CountsLast(s)
    && (s.running ==> s.phase == Resting)
    && (s.owed ==> !s.wait.Got?)
    && (Uncounted(s) && s.phase.Between? ==> s.before == [] && Reset !in s.input)
  }

  lemma FreshRead(s: Sync)
    requires Threads(s) && Only(Create, s) && Fresh(s) && Enabled(s, Reads) && !Uncounted(s)
    ensures Fresh(ReadsNext(s))
  {
    OnlyRead(Create, s);
  }

  lemma FreshRun(s: Sync, ok: bool)
    requires Fresh(s) && Enabled(s, Runs(ok))
    ensures Fresh(RunsNext(s, ok))
  {
    assert s.input[0] in s.input;
  }

  lemma FreshElse(s: Sync, e: Event)
    requires Threads(s) && Fresh(s) && Enabled(s, e) && !e.Reads? && !e.Runs?
    requires e.StartSends? ==> !s.running
    ensures Fresh(Step(s, e))
  {
  }

  ghost predicate PatientInv(s: Sync) {
    Only(Create, s) && Fresh(s) && Bounded(s)
  }

  lemma PatientStep(rule: Rule, s: Sync, e: Event)
    requires rule.fromStopped && rule.atOnce && rule.patient
    requires Threads(s) && PatientInv(s) && Allowed(rule, s, e)
    ensures PatientInv(Step(s, e))
  {
    OnlyKept(Create, s, e);
    BoundedKept(rule, s, e);
    match e
    case Runs(ok) => FreshRun(s, ok);
    case Reads => FreshRead(s);
    case _ => FreshElse(s, e);
  }

  ghost predicate KeptInv(j: nat, s: Sync) {
    Only(SetUp(j), s) && Tidy(j, s) && Bounded(s)
  }

  lemma KeptStep(rule: Rule, j: nat, s: Sync, e: Event)
    requires rule.fromStopped && rule.atOnce && j in rule.kept && j < SETUPS
    requires Threads(s) && KeptInv(j, s) && Allowed(rule, s, e)
    ensures KeptInv(j, Step(s, e))
  {
    OnlyKept(SetUp(j), s, e);
    BoundedKept(rule, s, e);
    match e
    case Runs(ok) => TidyRun(j, s, ok);
    case Reads => TidyRead(j, s);
    case _ => TidyElse(j, s, e);
  }

  ghost predicate OrderlyInv(rule: Rule, j: nat, s: Sync) {
    if rule.patient then PatientInv(s) else KeptInv(j, s)
  }

  /** No Create Sync is ever given up on, or one of the eight later commands of START is not. */
  predicate Orderly(rule: Rule, j: nat) {
    rule.fromStopped && rule.atOnce && (rule.patient || (j in rule.kept && j < 8))
  }

  lemma {:induction false} OrderlyRun(rule: Rule, j: nat, s: Sync, es: seq<Event>, t: Sync)
    requires Orderly(rule, j) && Inv(s) && OrderlyInv(rule, j, s) && Leads(rule, s, es, t)
    ensures Inv(t) && OrderlyInv(rule, j, t)
    decreases |es|
  {
    if es != [] {
      StepKeeps(s, es[0]);
      if rule.patient {
        PatientStep(rule, s, es[0]);
      } else {
        KeptStep(rule, j, s, es[0]);
      }
      OrderlyRun(rule, j, Step(s, es[0]), es[1..], t);
    }
  }

  /** A failed or lost train always gives its slot back: in every run, timeouts and late
      answers included, in which START comes from a stopped scan, nothing is read between a
      command's answer and its count, and no Create Sync is ever given up on or, failing
      that, at least one of START's later commands is not. */
  lemma SlotFreed(rule: Rule, j: nat, s: Sync)
    requires Orderly(rule, j) && Reachable(rule, s) && s.running
    ensures s.syncCount + (if Uncounted(s) then 1 else 0) <= s.radio.pending + s.radio.live + Unread(s.after)
    ensures Held(s) == 0 ==> s.syncCount < 1
  {
    var es :| Leads(rule, Init(), es, s);
    OrderlyRun(rule, j, Init(), es, s);
    MostLeast(s.after, Owing(s));
  }

  // ---- and none is forgotten ----

  /** Syncs accepted whose answer will be, or has been, read by the worker that asked. */
  function Coming(s: Sync): (n: nat) {
    multiset(s.after)[Answer(Create, true)] + if Uncounted(s) then 1 else 0
  }

  /** START has an answer to its reset. */
  predicate PastReset(s: Sync) {
    (s.phase == Resetting(true) && s.wait.Got?) || s.phase.Between? || s.phase.SettingUp?
  }

  /** The worker sends nothing before the scan runs. */
  ghost predicate Crossless(s: Sync) {
    && (!s.running ==> !s.checked)
    && (PastReset(s) ==> !s.owed && !WorkerWaits(s) && !s.running)
  }

  lemma CrosslessKept(rule: Rule, s: Sync, e: Event)
    requires rule.atOnce && rule.uncrossed && Allowed(rule, s, e)
    requires Crossless(s) && Threads(s) && Fresh(s)
    ensures Crossless(Step(s, e))
  {
  }

  /** The events behind the first RESET's answer. */
  function Behind(es: seq<Ev>): (rest: seq<Ev>) {
    if es == [] then [] else if es[0] == Answer(Reset, true) then es[1..] else Behind(es[1..])
  }

  lemma {:induction false} BehindPop(es: seq<Ev>)
    requires es != [] && Unread(Behind(es)) == 0
    ensures Unread(Behind(es[1..])) == 0
    ensures es[0] == Answer(Reset, true) ==> Unread(es[1..]) == 0
    decreases |es|
  {
    if es[0] == Answer(Reset, true) && es[1..] != [] {
      UnreadPop(es[1..]);
      BehindNone(es[1..]);
    }
  }

  lemma {:induction false} BehindNone(es: seq<Ev>)
    ensures Unread(Behind(es)) <= Unread(es)
    decreases |es|
  {
    if es != [] {
      UnreadPop(es);
      BehindNone(es[1..]);
    }
  }

  lemma {:induction false} BehindAppend(es: seq<Ev>, more: seq<Ev>)
    ensures Behind(es + more) == if Answer(Reset, true) in es then Behind(es) + more else Behind(more)
    decreases |es|
  {
    if es == [] {
      assert es + more == more;
    } else {
      assert (es + more)[1..] == es[1..] + more;
      assert es == [es[0]] + es[1..];
      BehindAppend(es[1..], more);
    }
  }

  /** A RESET's answer still unread means that the controller holds nothing, unless the
      sync on its way is what it was just asked for; START behind that answer, and the scan
      behind START, find no failure of the scan before. */
  ghost predicate Emptied(s: Sync) {
    && Answers(Reset, s.after) == 0 && Answer(Reset, false) !in s.before
    && Unread(Behind(s.before)) == 0
    && (s.before != [] ==> s.past.taken == 0 || (s.wait == For(Create) && s.input == []))
    && (PastReset(s) ==> s.past.taken == 0 && Unread(s.before) == 0)
    && (s.running ==> Unread(s.before) == 0 && (Reset in s.input ==> s.past.taken == 0))
  }

  /** A RESET's answer behind all that is queued. */
  lemma BehindReset(before: seq<Ev>, after: seq<Ev>)
    requires Answers(Reset, after) == 0 && Unread(Behind(before)) == 0
    requires before != [] ==> Answer(Reset, true) in before && Unread(after) == 0
    ensures Unread(Behind(before + after + [Answer(Reset, true)])) == 0
  {
    var answer := [Answer(Reset, true)];
    assert before + after + answer == before + (after + answer);
    BehindAppend(before, after + answer);
    BehindAppend(after, answer);
    UnreadAppend(after, answer);
    UnreadAppend(Behind(before), after + answer);
  }

  lemma EmptiedReset(s: Sync)
    requires Account(s) && ResetLast(s) && Emptied(s) && s.input != [] && s.input[0] == Reset
    ensures Emptied(RunsReset(s))
  {
    assert s.input[0] in s.input;
    UnreadAppend(s.before, s.after);
    UnreadSnoc(s.before + s.after, Answer(Reset, true));
    BehindReset(s.before, s.after);
  }

  lemma EmptiedRun(s: Sync, ok: bool)
    requires Account(s) && ResetLast(s) && Only(Create, s) && Crossless(s) && Emptied(s) && Enabled(s, Runs(ok))
    ensures Emptied(RunsNext(s, ok))
  {
    if s.input[0] == Reset {
      EmptiedReset(s);
    } else {
      AnswersSnoc(Reset, s.after, Answer(s.input[0], ok));
      assert s.input == [s.input[0]] + s.input[1..];
    }
  }

  lemma EmptiedRead(s: Sync)
    requires Threads(s) && Only(Create, s) && Emptied(s) && Enabled(s, Reads)
    ensures Emptied(ReadsNext(s))
  {
    OnlyRead(Create, s);
    if s.before != [] {
      assert s.before == [s.before[0]] + s.before[1..];
      BehindPop(s.before);
      UnreadPop(s.before);
    } else {
      AnswersPop(Reset, s.after);
    }
  }

  lemma EmptiedRadio(s: Sync, e: Event)
    requires Emptied(s) && Enabled(s, e) && (e.Resolve? || e.Lose?)
    ensures Emptied(Step(s, e))
  {
    AnswersSnoc(Reset, s.after, if e.Lose? then SyncLost else Established(e.ok));
  }

  lemma EmptiedReturn(s: Sync, e: Event)
    requires Threads(s) && Fresh(s) && Emptied(s) && Enabled(s, e) && !GivesUpOn(s, e, Create) && Returning(e)
    ensures Emptied(Step(s, e))
  {
  }

  lemma EmptiedElse(s: Sync, e: Event)
    requires Threads(s) && Fresh(s) && Emptied(s) && Enabled(s, e) && (Sending(e) || Working(e))
    requires e.StartSends? ==> !s.running
    ensures Emptied(Step(s, e))
  {
  }

  lemma EmptiedKept(s: Sync, e: Event)
    requires Threads(s) && Fresh(s) && Emptied(s) && Enabled(s, e) && !GivesUpOn(s, e, Create)
    requires !e.Runs? && !e.Reads? && (e.StartSends? ==> !s.running)
    ensures Emptied(Step(s, e))
  {
    if e.Resolve? || e.Lose? {
      EmptiedRadio(s, e);
    } else if Returning(e) {
      EmptiedReturn(s, e);
    } else {
      EmptiedElse(s, e);
    }
  }

  ghost predicate Exact(s: Sync) {
    s.running ==> s.past.leaked == 0 && s.past.uncounted == Coming(s)
  }

  /** No failure or loss is read with sync_count at 0: it would have to be that of a sync
      whose answer is still to come, behind it. */
  lemma NoneLeaks(s: Sync)
    requires Account(s) && Bounded(s) && Only(Create, s) && Exact(s) && !Uncounted(s)
    requires s.running && s.before == [] && s.after != [] && Frees(s.after[0])
    ensures s.syncCount > 0
  {
    UnreadPop(s.after);
    assert s.after == [s.after[0]] + s.after[1..];
    MostLeast(s.after[1..], Counted(s.after[0], Owing(s)));
  }

  lemma ExactReadBefore(s: Sync)
    requires Only(Create, s) && Exact(s) && Unread(s.before) == 0 && s.before != []
    ensures Exact(ReadsNext(s))
  {
    OnlyRead(Create, s);
    UnreadPop(s.before);
  }

  lemma ExactReadAfter(s: Sync)
    requires Account(s) && Bounded(s) && Only(Create, s) && Exact(s) && !Uncounted(s)
    requires s.running && s.before == [] && s.after != []
    ensures Exact(ReadsNext(s))
  {
    OnlyRead(Create, s);
    assert s.after == [s.after[0]] + s.after[1..];
    if Frees(s.after[0]) {
      NoneLeaks(s);
    }
  }

  lemma ExactRead(s: Sync)
    requires Account(s) && Bounded(s) && Only(Create, s) && Exact(s) && !Uncounted(s)
    requires s.running ==> Unread(s.before) == 0
    requires Enabled(s, Reads)
    ensures Exact(ReadsNext(s))
  {
    if s.running && s.before != [] {
      ExactReadBefore(s);
    } else if s.running {
      ExactReadAfter(s);
    }
  }

  lemma ExactReset(s: Sync)
    requires Account(s) && Only(Create, s) && Fresh(s) && Emptied(s) && Exact(s)
    requires s.input != [] && s.input[0] == Reset
    ensures Exact(RunsReset(s))
  {
    assert s.input[0] in s.input;
  }

  lemma ExactRun(s: Sync, ok: bool)
    requires Account(s) && Only(Create, s) && Fresh(s) && Emptied(s) && Exact(s) && Enabled(s, Runs(ok))
    ensures Exact(RunsNext(s, ok))
  {
    if s.input[0] == Reset {
      ExactReset(s);
    }
  }

  /** START's end finds the controller empty and the worker at rest. */
  lemma ExactStart(s: Sync)
    requires Account(s) && Only(Create, s) && Crossless(s) && Emptied(s) && Enabled(s, ScanStarted)
    ensures Exact(Step(s, ScanStarted))
  {
  }

  lemma ExactElse(s: Sync, e: Event)
    requires Threads(s) && Fresh(s) && Exact(s) && Enabled(s, e) && !GivesUpOn(s, e, Create)
    requires !e.Runs? && !e.Reads? && e != ScanStarted
    ensures Exact(Step(s, e))
  {
  }

  ghost predicate ExactInv(s: Sync) {
    Crossless(s) && Emptied(s) && Exact(s)
  }

  lemma ExactStep(rule: Rule, s: Sync, e: Event)
    requires rule.fromStopped && rule.atOnce && rule.patient && rule.uncrossed
    requires Inv(s) && PatientInv(s) && ExactInv(s) && Allowed(rule, s, e)
    ensures ExactInv(Step(s, e))
  {
    CrosslessKept(rule, s, e);
    if e.Runs? {
      EmptiedRun(s, e.ok);
      ExactRun(s, e.ok);
    } else if e == Reads {
      EmptiedRead(s);
      ExactRead(s);
    } else {
      EmptiedKept(s, e);
      if e == ScanStarted {
        ExactStart(s);
      } else {
        ExactElse(s, e);
      }
    }
  }

  lemma {:induction false} ExactRuns(rule: Rule, s: Sync, es: seq<Event>, t: Sync)
    requires rule.fromStopped && rule.atOnce && rule.patient && rule.uncrossed
    requires Inv(s) && PatientInv(s) && ExactInv(s) && Leads(rule, s, es, t)
    ensures Inv(t) && PatientInv(t) && ExactInv(t)
    decreases |es|
  {
    if es != [] {
      StepKeeps(s, es[0]);
      PatientStep(rule, s, es[0]);
      ExactStep(rule, s, es[0]);
      ExactRuns(rule, Step(s, es[0]), es[1..], t);
    }
  }

  /** Slot agreement: if no Create Sync is given up on, and no STOP comes between the
      worker's check and its command, sync_count is exactly the controller's syncs plus the
      failures and losses still to be read, but for an acceptance on its way to the worker;
      at rest it has none. */
  lemma SlotAgreement(rule: Rule, s: Sync)
    requires rule.fromStopped && rule.atOnce && rule.patient && rule.uncrossed
    requires Reachable(rule, s) && s.running
    ensures s.syncCount + Coming(s) == Held(s)
    ensures !s.owed && !WorkerWaits(s) ==> s.syncCount == Held(s)
  {
    var es :| Leads(rule, Init(), es, s);
    ExactRuns(rule, Init(), es, s);
  }

  // ---- what each condition is for ----

  /** The slot is taken for a sync that is not there, and none is on its way. */
  ghost predicate Lost(s: Sync) {
    s.running && s.syncCount == MAX_SYNCS && Held(s) == 0 && Create !in s.input
  }

  lemma LostStays(s: Sync, e: Event)
    requires Inv(s) && Lost(s) && Enabled(s, e) && e != StopBegins && e != ScanStarted
    ensures Lost(Step(s, e)) && e != WorkerChecks
  {
    if e.Runs? {
      UnreadSnoc(s.after, Answer(s.input[0], e.ok));
      UnreadAppend(s.before, s.after);
      UnreadSnoc(s.before + s.after, Answer(Reset, true));
      assert s.input[0] in s.input;
    } else if e.Reads? && s.before != [] {
      UnreadPop(s.before);
    } else if e.Reads? {
      UnreadPop(s.after);
    }
  }

  /** A slot lost stays lost: no train is asked for again before a STOP or the next scan. */
  lemma {:induction false} LeakIsForGood(rule: Rule, s: Sync, es: seq<Event>, t: Sync)
    requires Inv(s) && Lost(s) && Leads(rule, s, es, t)
    requires StopBegins !in es && ScanStarted !in es
    ensures Lost(t) && WorkerChecks !in es
    decreases |es|
  {
    if es != [] {
      assert es == [es[0]] + es[1..];
      StepKeeps(s, es[0]);
      LostStays(s, es[0]);
      LeakIsForGood(rule, Step(s, es[0]), es[1..], t);
    }
  }

  /** Every condition at once. */
  function All(): (rule: Rule) {
    Rule(true, true, {0, 1, 2, 3, 4, 5, 6, 7}, true, true)
  }

  /** A rule, and a set of states that holds the first one and everything an allowed step
      leads to. */
  datatype Reach = Reach(rule: Rule, states: Sync -> bool)

  ghost predicate IsClosed(r: Reach) {
    r.states(Init()) && forall s, e :: r.states(s) && Allowed(r.rule, s, e) ==> r.states(Step(s, e))
  }

  type Closed = r: Reach | IsClosed(r) ghost witness Reach(ANY, (s: Sync) => true)

  ghost function Reached(rule: Rule): Reach {
    Reach(rule, s => Reachable(rule, s))
  }

  lemma {:induction false} RunAppend(rule: Rule, s: Sync, es: seq<Event>, t: Sync, e: Event)
    requires Leads(rule, s, es, t) && Allowed(rule, t, e)
    ensures Leads(rule, s, es + [e], Step(t, e))
    decreases |es|
  {
    if es == [] {
      assert [e][1..] == [] && es + [e] == [e];
      assert Leads(rule, Step(s, e), [], Step(s, e));
    } else {
      assert (es + [e])[1..] == es[1..] + [e];
      RunAppend(rule, Step(s, es[0]), es[1..], t, e);
    }
  }

  lemma ReachableIsClosed(rule: Rule)
    ensures IsClosed(Reached(rule))
  {
    assert Leads(rule, Init(), [], Init());
    forall s, e | Reachable(rule, s) && Allowed(rule, s, e) ensures Reachable(rule, Step(s, e)) {
      var es :| Leads(rule, Init(), es, s);
      RunAppend(rule, Init(), es, s, e);
    }
  }

  lemma Onward(r: Closed, s: Sync, e: Event) returns (t: Sync)
    requires r.states(s) && Allowed(r.rule, s, e)
    ensures t == Step(s, e) && r.states(t)
  {
    t := Step(s, e);
  }

  /** Nothing is queued, waited for or to be counted. */
  predicate Quiet(s: Sync) {
    s.wait == Free && s.input == [] && s.before == [] && s.after == [] && !s.owed
  }

  /** The command waited for is run and its answer read. */
  lemma Answered(r: Closed, s: Sync) returns (t: Sync)
    requires r.states(s) && s.wait.For? && s.wait.cmd.SetUp? && s.input == [s.wait.cmd]
    requires s.before == [] && s.after == [] && !s.owed
    ensures t == s.(wait := Got(s.wait.cmd, true), input := []) && r.states(t)
  {
    t := Onward(r, s, Runs(true));
    assert t.input == [] && t.after == [Answer(s.wait.cmd, true)];
    t := Onward(r, t, Reads);
    assert t.after == [];
  }

  /** And a RESET, with nothing held. */
  lemma ResetAnswered(r: Closed, s: Sync) returns (t: Sync)
    requires r.states(s) && s.wait == For(Reset) && s.input == [Reset]
    requires s.before == [] && s.after == [] && !s.owed && s.radio == Radio(0, 0)
    ensures t == s.(wait := Got(Reset, true), input := [], past := Past(s.past.uncounted, s.past.leaked, 0, 0)) && r.states(t)
  {
    t := Onward(r, s, Runs(true));
    assert t.input == [] && t.before == [Answer(Reset, true)] && t.after == [];
    t := Onward(r, t, Reads);
    assert t.before == [];
  }

  lemma {:induction false} SetsUp(r: Closed, s: Sync) returns (t: Sync)
    requires r.states(s) && Quiet(s) && s.phase.Between? && s.phase.i <= SETUPS
    ensures t == s.(phase := Between(SETUPS)) && r.states(t)
    decreases SETUPS - s.phase.i
  {
    t := s;
    if s.phase.i < SETUPS {
      t := Onward(r, s, SetUpSends(true));
      t := Answered(r, t);
      t := Onward(r, t, Wakes);
      t := SetsUp(r, t);
    }
  }

  /** START's reset, from a controller that holds nothing, and its later commands. */
  lemma Starts(r: Closed, s: Sync) returns (t: Sync)
    requires r.states(s) && Quiet(s) && s.phase == Resting && !s.running && s.radio == Radio(0, 0)
    ensures t == s.(phase := Between(SETUPS), past := Past(s.past.uncounted, s.past.leaked, 0, 0)) && r.states(t)
  {
    t := Onward(r, s, StartSends(true));
    t := ResetAnswered(r, t);
    t := Onward(r, t, Wakes);
    t := SetsUp(r, t);
  }

  /** Scanning, following trains, nothing held yet. */
  lemma ScanRuns(r: Closed) returns (s: Sync)
    ensures r.states(s) && Quiet(s) && s.running && s.periodic && s.phase == Resting
    ensures s.syncCount == 0 && !s.checked && !s.owed && s.radio == Radio(0, 0)
  {
    s := Starts(r, Init());
    s := Onward(r, s, ScanStarted);
    s := Onward(r, s, SetPeriodic(true));
  }

  /** A train asked for, and the controller's answer queued. */
  lemma Asks(r: Closed, s: Sync, ok: bool) returns (t: Sync)
    requires r.states(s) && s.wait == Free && s.input == [] && !s.checked && !s.owed && s.radio == Radio(0, 0)
    requires s.running && s.periodic && s.syncCount == 0
    ensures t == s.(wait := For(Create), after := s.after + [Answer(Create, ok)],
                    radio := Radio(if ok then 1 else 0, 0), past := t.past)
    ensures r.states(t)
  {
    t := Onward(r, s, WorkerChecks);
    t := Onward(r, t, WorkerSends(true));
    assert t.input == [Create];
    t := Onward(r, t, Runs(ok));
    assert t.input == [];
  }

  /** A train asked for and accepted, and the answer read. */
  lemma Accepted(r: Closed) returns (t: Sync)
    ensures r.states(t) && t.wait == Got(Create, true) && t.running && t.phase == Resting && !t.owed && !t.checked
    ensures t.input == [] && t.before == [] && t.after == [] && t.radio == Radio(1, 0) && t.syncCount == 0
  {
    t := ScanRuns(r);
    t := Asks(r, t, true);
    t := Onward(r, t, Reads);
    assert t.after == [];
  }

  lemma SplitLosesIn(r: Closed) returns (s: Sync)
    requires !r.rule.atOnce
    ensures r.states(s) && Lost(s)
  {
    s := Accepted(r);
    s := Onward(r, s, Wakes);
    s := Onward(r, s, Resolve(false));
    assert s.after == [Established(false)];
    s := Onward(r, s, Reads);
    assert s.after == [];
    s := Onward(r, s, WorkerCounts);
  }

  /** And counted. */
  lemma Followed(r: Closed) returns (t: Sync)
    ensures r.states(t) && Quiet(t) && t.running && t.phase == Resting && t.syncCount == 1 && t.radio == Radio(1, 0)
  {
    t := Accepted(r);
    t := Onward(r, t, Wakes);
    t := Onward(r, t, WorkerCounts);
  }

  lemma RestartLosesIn(r: Closed) returns (s: Sync)
    requires !r.rule.fromStopped
    ensures r.states(s) && Lost(s)
  {
    s := Followed(r);
    s := QueuesReset(r, s, StartSends(true));
    assert s.before == [Answer(Reset, true)];
    s := Onward(r, s, TimesOut);
  }

  lemma TimeoutForgetsIn(r: Closed) returns (s: Sync)
    requires !r.rule.patient
    ensures r.states(s) && s.running && Quiet(s) && !s.checked && s.syncCount == 0 && s.radio == Radio(0, 1)
  {
    s := ScanRuns(r);
    s := Asks(r, s, true);
    s := Onward(r, s, TimesOut);
    s := Onward(r, s, Reads);
    assert s.after == [];
    s := Onward(r, s, Resolve(true));
    assert s.after == [Established(true)];
    s := Onward(r, s, Reads);
    assert s.after == [];
  }

  /** STOP behind the worker's check, and the next START up to its end. */
  lemma Crosses(r: Closed) returns (s: Sync)
    requires !r.rule.uncrossed
    ensures r.states(s) && Quiet(s) && s.phase == Between(SETUPS) && s.checked && s.radio == Radio(0, 0) && s.syncCount == 0
  {
    s := ScanRuns(r);
    s := Onward(r, s, WorkerChecks);
    s := Onward(r, s, StopBegins);
    s := Onward(r, s, StopSends(true));
    s := ResetAnswered(r, s);
    s := Onward(r, s, Wakes);
    s := Starts(r, s);
  }

  /** Its command, sent only then. */
  lemma CrossAsks(r: Closed) returns (s: Sync)
    requires !r.rule.uncrossed
    ensures r.states(s) && s.phase == Between(SETUPS) && s.wait == Got(Create, true) && s.syncCount == 0
    ensures s.input == [] && s.before == [] && s.after == [] && !s.checked && !s.owed && s.radio == Radio(1, 0)
  {
    s := Crosses(r);
    s := Onward(r, s, WorkerSends(true));
    s := Onward(r, s, Runs(true));
    assert s.input == [] && s.after == [Answer(Create, true)];
    s := Onward(r, s, Reads);
    assert s.after == [];
  }

  lemma CrossingForgetsIn(r: Closed) returns (s: Sync)
    requires !r.rule.uncrossed
    ensures r.states(s) && s.running && Quiet(s) && !s.checked && s.syncCount == 0 && s.radio == Radio(1, 0)
  {
    s := CrossAsks(r);
    s := Onward(r, s, Wakes);
    s := Onward(r, s, WorkerCounts);
    s := Onward(r, s, ScanStarted);
  }

  // ---- every one of START's commands given up on in its turn ----

  /** The answers to START's later commands before the `k`th. */
  function Acks(k: nat): (es: seq<Ev>)
    ensures |es| == k
    ensures forall i :: 0 <= i < k ==> es[i] == Answer(SetUp(i), true)
  {
    seq(k, (i: nat) => Answer(SetUp(i), true))
  }

  lemma {:induction false} AcksFreeNothing(k: nat)
    ensures Unread(Acks(k)) == 0
  {
    if k > 0 {
      assert Acks(k) == Acks(k - 1) + [Answer(SetUp(k - 1), true)];
      AcksFreeNothing(k - 1);
      UnreadSnoc(Acks(k - 1), Answer(SetUp(k - 1), true));
    }
  }

  /** One command sent and run behind what is queued. */
  lemma Queues(r: Closed, s: Sync) returns (t: Sync)
    requires r.states(s) && s.wait == Free && s.input == [] && s.phase.Between? && s.phase.i < SETUPS
    ensures t == s.(phase := SettingUp(s.phase.i), wait := For(SetUp(s.phase.i)), after := s.after + [Answer(SetUp(s.phase.i), true)])
    ensures r.states(t)
  {
    t := Onward(r, s, SetUpSends(true));
    assert t.input == [SetUp(s.phase.i)];
    t := Onward(r, t, Runs(true));
    assert t.input == [];
  }

  /** And completed by an older answer to the same command. */
  lemma OldAnswer(r: Closed, s: Sync) returns (t: Sync)
    requires r.states(s) && s.wait == Free && s.input == [] && !s.owed && s.phase.Between? && s.phase.i < SETUPS
    requires s.before != [] && s.before[0] == Answer(SetUp(s.phase.i), true)
    ensures t == s.(phase := Between(s.phase.i + 1), before := s.before[1..], after := s.after + [s.before[0]]) && r.states(t)
  {
    t := Queues(r, s);
    t := Onward(r, t, Reads);
    t := Onward(r, t, Wakes);
  }

  /** As many as there are older answers: afterwards as many are queued again. */
  lemma {:induction false} OldAnswers(r: Closed, s: Sync, k: nat, tail: seq<Ev>) returns (t: Sync)
    requires r.states(s) && s.wait == Free && s.input == [] && !s.owed && s.phase.Between? && s.phase.i <= k <= SETUPS
    requires s.before == Acks(k)[s.phase.i..] + tail && s.after == Acks(s.phase.i)
    ensures t == s.(phase := Between(k), before := tail, after := Acks(k)) && r.states(t)
    decreases k - s.phase.i
  {
    t := s;
    if s.phase.i < k {
      t := OldAnswer(r, s);
      assert t.before == Acks(k)[s.phase.i + 1..] + tail;
      assert t.after == Acks(s.phase.i + 1);
      t := OldAnswers(r, t, k, tail);
    } else {
      assert s.before == tail;
    }
  }

  /** A RESET sent and run behind what is queued. */
  lemma QueuesReset(r: Closed, s: Sync, e: Event) returns (t: Sync)
    requires r.states(s) && Allowed(r.rule, s, e) && (e == StartSends(true) || e == StopSends(true)) && s.input == []
    ensures t == s.(phase := Resetting(e.StartSends?), wait := For(Reset), radio := Radio(0, 0), past := t.past,
                    before := s.before + s.after + [Answer(Reset, true)], after := [])
    ensures r.states(t)
  {
    t := Onward(r, s, e);
    assert t.input == [Reset];
    t := Onward(r, t, Runs(true));
    assert t.input == [];
  }

  /** START's, completed by an older answer. */
  lemma OldReset(r: Closed, s: Sync, rest: seq<Ev>) returns (t: Sync)
    requires r.states(s) && s.wait == Free && s.input == [] && !s.owed && s.phase == Resting && !s.running
    requires s.before + s.after == [Answer(Reset, true)] + rest
    ensures t == s.(phase := Between(0), before := rest + [Answer(Reset, true)], after := [], radio := Radio(0, 0), past := t.past)
    ensures r.states(t)
  {
    t := QueuesReset(r, s, StartSends(true));
    assert t.before == [Answer(Reset, true)] + (rest + [Answer(Reset, true)]);
    t := Onward(r, t, Reads);
    t := Onward(r, t, Wakes);
  }

  /** A START with one RESET's answer and `k` of its later commands' queued ahead of
      `tail`: its reset and its first `k` are completed by those. */
  lemma OldStart(r: Closed, s: Sync, k: nat, tail: seq<Ev>) returns (t: Sync)
    requires r.states(s) && s.wait == Free && s.input == [] && !s.owed && s.phase == Resting && !s.running
    requires k <= SETUPS && s.before + s.after == [Answer(Reset, true)] + Acks(k) + tail
    ensures t == s.(phase := Between(k), before := tail + [Answer(Reset, true)], after := Acks(k), radio := Radio(0, 0), past := t.past)
    ensures r.states(t)
  {
    t := OldReset(r, s, Acks(k) + tail);
    assert t.before == Acks(k)[0..] + (tail + [Answer(Reset, true)]);
    t := OldAnswers(r, t, k, tail + [Answer(Reset, true)]);
  }

  /** Stopped, with one RESET's answer and `k` of its later commands' unread. */
  predicate Lagging(s: Sync, k: nat) {
    && s.wait == Free && s.input == [] && !s.owed && !s.checked && s.phase == Resting && !s.running
    && s.before == [Answer(Reset, true)] && s.after == Acks(k) && s.radio == Radio(0, 0)
  }

  /** After `k` + 1 STARTs, each given up on one command later. */
  lemma {:induction false} Lags(r: Closed, k: nat) returns (s: Sync)
    requires r.rule.kept == {} && k <= SETUPS
    ensures r.states(s) && Lagging(s, k)
  {
    if k == 0 {
      s := QueuesReset(r, Init(), StartSends(true));
      assert s.before == [Answer(Reset, true)];
      s := Onward(r, s, TimesOut);
    } else {
      s := Lags(r, k - 1);
      s := OldStart(r, s, k - 1, []);
      s := Queues(r, s);
      assert s.after == Acks(k);
      s := Onward(r, s, TimesOut);
    }
  }

  /** The next START succeeds on older answers alone; a train asked for is given up on. */
  lemma LagScans(r: Closed) returns (s: Sync)
    requires r.rule.kept == {} && !r.rule.patient
    ensures r.states(s) && s.wait == Free && s.input == [] && !s.owed && !s.checked && s.phase == Resting && s.running && s.periodic
    ensures s.before + s.after == [Answer(Reset, true)] + Acks(SETUPS) + [Answer(Create, true)]
  {
    s := Lags(r, SETUPS);
    s := OldStart(r, s, SETUPS, []);
    s := Onward(r, s, ScanStarted);
    s := Onward(r, s, SetPeriodic(true));
    s := Asks(r, s, true);
    s := Onward(r, s, TimesOut);
  }

  /** STOP's reset is given up on. */
  lemma LagStops(r: Closed) returns (s: Sync)
    requires r.rule.kept == {} && !r.rule.patient
    ensures r.states(s) && s.wait == Free && s.input == [] && !s.owed && !s.checked && s.phase == Resting && !s.running && s.periodic
    ensures s.before + s.after == [Answer(Reset, true)] + Acks(SETUPS) + [Answer(Create, true), Answer(Reset, true)]
  {
    s := LagScans(r);
    s := Onward(r, s, StopBegins);
    s := QueuesReset(r, s, StopSends(true));
    s := Onward(r, s, TimesOut);
    assert s.before == [Answer(Reset, true)] + Acks(SETUPS) + [Answer(Create, true), Answer(Reset, true)];
  }

  /** The START behind it succeeds as the one before. */
  lemma LagRestarts(r: Closed) returns (s: Sync)
    requires r.rule.kept == {} && !r.rule.patient
    ensures r.states(s) && s.wait == Free && s.input == [] && !s.owed && !s.checked && s.phase == Resting && s.running && s.periodic
    ensures s.before == [Answer(Create, true), Answer(Reset, true), Answer(Reset, true)] && s.after == Acks(SETUPS)
    ensures s.syncCount == 0 && s.radio == Radio(0, 0)
  {
    s := LagStops(r);
    s := OldStart(r, s, SETUPS, [Answer(Create, true), Answer(Reset, true)]);
    s := Onward(r, s, ScanStarted);
  }

  lemma LagLosesIn(r: Closed) returns (s: Sync)
    requires r.rule.kept == {} && !r.rule.patient
    ensures r.states(s) && Lost(s) && s.after == Acks(8) + [Answer(Create, false)]
  {
    s := LagRestarts(r);
    s := Asks(r, s, false);
    AcksFreeNothing(SETUPS);
    UnreadSnoc(Acks(SETUPS), Answer(Create, false));
    s := Onward(r, s, Reads);
    assert s.before == [Answer(Reset, true), Answer(Reset, true)];
    s := Onward(r, s, Wakes);
    s := Onward(r, s, WorkerCounts);
  }

  /** Without "nothing read between answer and count": the train fails in between, and the
      slot is lost. */
  lemma SplitLoses() returns (s: Sync)
    ensures Reachable(All().(atOnce := false), s) && Lost(s)
  {
    ReachableIsClosed(All().(atOnce := false));
    s := SplitLosesIn(Reached(All().(atOnce := false)));
  }

  /** Without "START from a stopped scan": its reset takes the sync, START gives up, and the
      scan goes on with the slot lost. */
  lemma RestartLoses() returns (s: Sync)
    ensures Reachable(All().(fromStopped := false), s) && Lost(s)
  {
    ReachableIsClosed(All().(fromStopped := false));
    s := RestartLosesIn(Reached(All().(fromStopped := false)));
  }

  /** With each of START's later commands given up on once: every answer of a START can be
      an older one's, and a Create Sync of the scan before is answered in this one; its own
      eight answers are still to come. */
  lemma LagLoses() returns (s: Sync)
    ensures Reachable(All().(kept := {}, patient := false), s) && Lost(s)
    ensures s.after == Acks(8) + [Answer(Create, false)]
  {
    ReachableIsClosed(All().(kept := {}, patient := false));
    s := LagLosesIn(Reached(All().(kept := {}, patient := false)));
  }

  /** A Create Sync accepted and given up on: the train is followed and not counted. */
  lemma TimeoutForgets() returns (s: Sync)
    ensures Reachable(All().(patient := false), s)
    ensures s.running && Quiet(s) && !s.checked && s.syncCount == 0 && s.radio == Radio(0, 1)
  {
    ReachableIsClosed(All().(patient := false));
    s := TimeoutForgetsIn(Reached(All().(patient := false)));
  }

  /** A worker that checked in one scan and sends in the next START: its sync is forgotten
      as that scan starts. */
  lemma CrossingForgets() returns (s: Sync)
    ensures Reachable(All().(uncrossed := false), s)
    ensures s.running && Quiet(s) && !s.checked && s.syncCount == 0 && s.radio == Radio(1, 0)
  {
    ReachableIsClosed(All().(uncrossed := false));
    s := CrossingForgetsIn(Reached(All().(uncrossed := false)));
  }
}
