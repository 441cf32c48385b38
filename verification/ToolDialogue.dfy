// What the worker of the PDF tools is told and what it tells: passwords and cancels reach the job
// they are for, results become events, and events are delivered.

module ToolDialogue {
  import opened Wrappers
  import opened ToolPasswords
  import opened ToolWorker

  // Commands

  /** The offer is for the job that waits, and for the file it waits for. */
  predicate IsAwaited(pending: Option<Suspended>, key: Key, source: Path) {
    pending.Some? && pending.value.job.key == key && pending.value.source == source
  }

  /** The job holds the password for the file, and for every other file what it held before. */
  ghost predicate HoldsToo(job: Job, before: Job, source: Path, password: Password) {
    && job.ticket == before.ticket && job.key == before.key
    && PasswordFor(job.passwords, source) == Some(password)
    && forall other: Path :: other != source
         ==> PasswordFor(job.passwords, other) == PasswordFor(before.passwords, other)
  }

  /**
   * An awaited password goes to the job that waits for it, which runs again; any other offer leaves the job
   * waiting as it was, and the worker asks again.
   */
  lemma OfferIsHeeded(s: State, t: State, key: Key, source: Path, password: Password)
    requires Next(s, DoReceive, t) && s.slot == Some(ProvidePassword(key, source, password))
    ensures t.slot == None
    ensures IsAwaited(s.pending, key, source) ==>
              && t.pending == None && t.made == s.made && t.pc.SetToken?
              && HoldsToo(t.pc.job, s.pending.value.job, source, password)
    ensures !IsAwaited(s.pending, key, source) ==> t.pending == s.pending
    ensures !IsAwaited(s.pending, key, source) && s.pending.Some? ==>
              var p := s.pending.value;
              var event := ToolEvent(p.job.ticket, p.job.key, PasswordRequired(p.source, p.wrong));
              t.made == s.made + [event] && t.pc.Send? && t.pc.event == event
  {
    if IsAwaited(s.pending, key, source) {
      var before := s.pending.value.job;
      forall other: Path | other != source
        ensures PasswordFor(Replaced(before.passwords, source, password), other) == PasswordFor(before.passwords, other)
      {
        ReplacedIsFound(before.passwords, source, password, other);
      }
      ReplacedIsFound(before.passwords, source, password, source);
    }
    hide Replaced, PasswordFor;
  }

  /** A cancel ends the job that waits under its key with one event, and leaves any other waiting job alone. */
  lemma CancelIsHeeded(s: State, t: State, key: Key)
    requires Next(s, DoReceive, t) && s.slot == Some(Cancel(key))
    ensures s.pending.Some? && s.pending.value.job.key == key ==>
              var event := ToolEvent(s.pending.value.job.ticket, key, Cancelled);
              && t.pending == None && t.made == s.made + [event]
              && t.pc.Deactivate? && t.pc.event == event
    ensures !(s.pending.Some? && s.pending.value.job.key == key) ==>
              t.pending == s.pending && t.made == s.made && t.pc == Check
  {}

  /** A job that was sent is taken up. */
  lemma StartIsHeeded(s: State, t: State, job: Job)
    requires Next(s, DoReceive, t) && s.slot == Some(Start(job))
    ensures t.pc == SetToken(job) && t.pending == s.pending && t.made == s.made && t.slot == None
  {}

  /** A claim succeeds exactly if no job is active, and begins the submission of a new job without passwords. */
  lemma ClaimIsExclusive(s: State, t: State, key: Key)
    requires Next(s, Claim(key), t)
    ensures s.active ==> t == s
    ensures !s.active ==>
              && t.active && t.nextTicket == s.nextTicket + 1
              && t.submissions == s.submissions + [Submission(Job(s.nextTicket, key, []), false)]
  {}

  /** A command that a caller sends takes the slot exactly if it is free and the worker is there. */
  lemma CommandTakesTheSlot(s: State, step: Step, t: State)
    requires Next(s, step, t) && (step.Offer? || step.SendCancel? || step.TrySubmit?)
    ensures var taken := s.sender && !s.pc.Stopped? && s.slot.None?;
            && (!taken ==> t.slot == s.slot)
            && (taken && step.Offer? ==> t.slot == Some(ProvidePassword(step.key, step.source, step.password)))
            && (taken && step.SendCancel? ==> t.slot == Some(Cancel(step.key)))
            && (taken && step.TrySubmit? ==>
                  step.at < |s.submissions| && t.slot == Some(Start(s.submissions[step.at].job)))
  {
    hide Without, Handle, AfterRun, SendStep;
  }

  lemma StepKeepsJob(s: State, step: Step, t: State)
    requires Next(s, step, t) && AtWork(s.pc) && AtWork(t.pc)
    ensures t.pc.job == s.pc.job
  {
    hide Handle, Cleared;
    if CallerStep(step) { CallerStepCompletesNothing(s, step, t); }
  }

  lemma {:induction false} SameJobAtWork(run: seq<State>, steps: seq<Step>, i: nat, j: nat)
    requires IsRun(run, steps) && i <= j < |run| && forall k :: i <= k <= j ==> AtWork(run[k].pc)
    ensures AtWork(run[i].pc) && AtWork(run[j].pc) && run[j].pc.job == run[i].pc.job
  {
    hide Next;
    if i < j {
      SameJobAtWork(run, steps, i, j - 1);
      RunGoesOn(run, steps, j - 1);
      StepKeepsJob(run[j - 1], steps[j - 1], run[j]);
    }
  }

  /** From the step that takes up an awaited password until the job has reported, the job holds it. */
  lemma OfferedPasswordReachesJob(run: seq<State>, steps: seq<Step>, i: nat, j: nat, key: Key, source: Path,
      password: Password)
    requires IsRun(run, steps) && |run| == |steps| + 1 && i < j < |run| && steps[i] == DoReceive
    requires run[i].slot == Some(ProvidePassword(key, source, password)) && IsAwaited(run[i].pending, key, source)
    requires forall k :: i < k <= j ==> AtWork(run[k].pc)
    ensures AtWork(run[j].pc) && HoldsToo(run[j].pc.job, run[i].pending.value.job, source, password)
  {
    hide Next, HoldsToo;
    RunGoesOn(run, steps, i);
    OfferIsHeeded(run[i], run[i + 1], key, source, password);
    SameJobAtWork(run, steps, i + 1, j);
  }

  // Results

  /** The kind of event that tells a result. */
  function KindOf(result: ToolWorker.Result): EventKind {
    match result
    case RCompleted => Completed
    case RPasswordRequired(source, wrong) => PasswordRequired(source, wrong)
    case RCancelled => Cancelled
    case RFailed => Failed
    case RPanicked => Failed
  }

  /**
   * Each result of a job becomes one event of this job. A job that needs a password waits, without the one
   * that was wrong and with all others; every other job is over.
   */
  lemma ResultIsTold(s: State, t: State)
    requires Next(s, DoReport, t)
    ensures s.pc.Report?
    ensures var (job, result) := (s.pc.job, s.pc.result);
            var event := ToolEvent(job.ticket, job.key, KindOf(result));
            && t.made == s.made + [event]
            && (t.pc.Deactivate? || t.pc.Send?) && t.pc.event == event
            && (t.pc.Send? <==> result.RPasswordRequired?)
    ensures s.pc.result.RPasswordRequired? ==>
              var (job, source, wrong) := (s.pc.job, s.pc.result.source, s.pc.result.wrong);
              && t.pending.Some? && t.pending.value.source == source && t.pending.value.wrong == wrong
              && t.pending.value.job.ticket == job.ticket && t.pending.value.job.key == job.key
              && (!wrong ==> t.pending.value.job == job)
              && (wrong ==> ForgetsOnly(t.pending.value.job, job, source))
  {
    if s.pc.result.RPasswordRequired? {
      ClearedOnly(s.pc.job.passwords, s.pc.result.source);
    }
    hide Cleared, PasswordFor;
  }

  /** The passwords of the job but those for the file. */
  ghost predicate ForgetsOnly(job: Job, before: Job, source: Path) {
    && PasswordFor(job.passwords, source) == None
    && forall other: Path :: other != source
         ==> PasswordFor(job.passwords, other) == PasswordFor(before.passwords, other)
  }

  lemma ClearedOnly(ps: Passwords, source: Path)
    ensures PasswordFor(Cleared(ps, source), source) == None
    ensures forall other: Path :: other != source ==> PasswordFor(Cleared(ps, source), other) == PasswordFor(ps, other)
  {
    hide Cleared, PasswordFor;
    ClearedAt(ps, source, source);
    forall other: Path | other != source ensures PasswordFor(Cleared(ps, source), other) == PasswordFor(ps, other) {
      ClearedAt(ps, source, other);
    }
  }

  lemma {:induction false} ClearedAt(ps: Passwords, source: Path, other: Path)
    ensures PasswordFor(Cleared(ps, source), other) == if other == source then None else PasswordFor(ps, other)
  {
    if ps != [] {
      var (front, last) := (ps[..|ps| - 1], ps[|ps| - 1]);
      ClearedAt(front, source, other);
      assert ps == front + [last];
      PasswordAfter(front, last, other);
      PasswordAfter(Cleared(front, source), last, other);
      hide PasswordFor;
    }
  }

  lemma {:induction false} PasswordAfter(ps: Passwords, last: (Path, Password), source: Path)
    ensures PasswordFor(ps + [last], source)
         == if PasswordFor(ps, source).Some? then PasswordFor(ps, source)
            else if last.0 == source then Some(last.1) else None
  {
    if ps != [] {
      assert (ps + [last])[1..] == ps[1..] + [last];
      PasswordAfter(ps[1..], last, source);
    } else {
      assert ([] + [last])[1..] == [];
    }
  }

  // Delivery

  /** The event the worker has made and not yet sent or given up. */
  function Hand(pc: Pc): multiset<ToolEvent> {
    if Holds(pc) then multiset{pc.event} else multiset{}
  }

  /** The event the step takes out of the channel. */
  function PolledBy(s: State, step: Step): multiset<ToolEvent> {
    if step.Poll? && s.events != [] then multiset{s.events[0]} else multiset{}
  }

  /** The event the step gives up. */
  function GivenUpBy(s: State, step: Step, t: State): multiset<ToolEvent> {
    if step.DoSend? && s.pc.Send? && !t.pc.Send? && t.events == s.events then multiset{s.pc.event} else multiset{}
  }

  function Polled(run: seq<State>, steps: seq<Step>, i: nat): multiset<ToolEvent>
    requires i <= |steps| < |run|
  {
    if i == 0 then multiset{} else Polled(run, steps, i - 1) + PolledBy(run[i - 1], steps[i - 1])
  }

  function GivenUp(run: seq<State>, steps: seq<Step>, i: nat): multiset<ToolEvent>
    requires i <= |steps| < |run|
  {
    if i == 0 then multiset{} else GivenUp(run, steps, i - 1) + GivenUpBy(run[i - 1], steps[i - 1], run[i])
  }

  /**
   * An attempt puts the event at the end of the channel if there is room, and gives it up only in a full
   * channel, after a first attempt.
   */
  lemma SendDelivers(s: State, giveUp: bool, t: State)
    requires Next(s, DoSend(giveUp), t) && s.receiver && !s.shutdown && s.pc.Send? && !s.pc.stage.LastTry?
    ensures !s.pc.stage.Look? && |s.events| < EVENT_CAPACITY ==> t.events == s.events + [s.pc.event] && t.pc == Check
    ensures s.pc.stage.Look? || |s.events| >= EVENT_CAPACITY ==> t.events == s.events
    ensures t.pc.Send? ==> t.pc.event == s.pc.event
    ensures GivenUpBy(s, DoSend(giveUp), t) != multiset{} ==>
              |s.events| >= EVENT_CAPACITY && giveUp && s.pc.stage == Try(true)
  {}

  /** What a step makes is in the worker's hand, in the channel, polled or given up. */
  ghost predicate Balanced(s: State, step: Step, t: State) {
    multiset(t.made) + multiset(s.events) + Hand(s.pc)
    == multiset(s.made) + multiset(t.events) + Hand(t.pc) + PolledBy(s, step) + GivenUpBy(s, step, t)
  }

  lemma CallerBalances(s: State, step: Step, t: State)
    requires Next(s, step, t) && CallerStep(step) && !t.shutdown && !s.shutdown
    ensures Balanced(s, step, t)
  {
    CallerStepCompletesNothing(s, step, t);
    assert !step.DropReceiver?;
    if step.Poll? {
      assert s.events == [s.events[0]] + s.events[1..];
    } else {
      CallerKeepsEvents(s, step, t);
    }
    hide Next;
  }

  lemma CallerKeepsEvents(s: State, step: Step, t: State)
    requires Next(s, step, t) && CallerStep(step) && !s.shutdown && !step.Poll?
    ensures t.events == s.events
  {
    hide Handle, AfterRun, SendStep, Without;
  }

  lemma WorkerBalances(s: State, step: Step, t: State)
    requires Next(s, step, t) && !CallerStep(step) && !t.shutdown && s.receiver && !s.shutdown
    requires s.pc.Send? ==> !s.pc.stage.LastTry?
    requires !s.pc.LeaveLoop? && !s.pc.LeaveClear?
    ensures Balanced(s, step, t)
  {
    hide Next, Handle, AfterRun, SendStep, Balanced;
    if step.DoSend? {
      SendBalances(s, step.giveUp, t);
    } else if step.DoReceive? && s.slot.Some? {
      ReceiveBalances(s, t, s.slot.value);
    } else if step.DoReport? {
      ReportingBalances(s, t);
    } else {
      QuietBalances(s, step, t);
      SameBalances(s, step, t);
    }
  }

  lemma SameBalances(s: State, step: Step, t: State)
    requires t.made == s.made && t.events == s.events && SameHand(s.pc, t.pc) && !step.Poll? && !step.DoSend?
    ensures Balanced(s, step, t)
  {
    assert Hand(t.pc) == Hand(s.pc);
    hide Hand;
  }

  /** The worker holds an event. */
  predicate Holds(pc: Pc) {
    pc.Deactivate? || pc.ClearToken? || pc.Send?
  }

  predicate SameHand(v: Pc, w: Pc) {
    (Holds(v) <==> Holds(w)) && (Holds(v) ==> v.event == w.event)
  }

  lemma SendBalances(s: State, giveUp: bool, t: State)
    requires Next(s, DoSend(giveUp), t) && s.receiver && !s.shutdown && !s.pc.LeaveLoop?
    requires s.pc.Send? ==> !s.pc.stage.LastTry?
    ensures Balanced(s, DoSend(giveUp), t)
  {
    assert s.pc.Send? && t == SendStep(s, giveUp);
    SendDelivers(s, giveUp, t);
    SendCompletesNothing(s, giveUp);
    SendEnds(s, giveUp);
    hide SendStep, Next;
    if !s.pc.stage.Look? && |s.events| < EVENT_CAPACITY { OneMore(s.events, s.pc.event); }
  }

  lemma SendEnds(s: State, giveUp: bool)
    requires s.pc.Send? && s.receiver
    ensures var t := SendStep(s, giveUp);
            t.pc.Check? || (t.pc.Send? && t.pc.event == s.pc.event && t.events == s.events)
  {}

  lemma ReceiveBalances(s: State, t: State, c: ToolCommand)
    requires Next(s, DoReceive, t) && s.slot == Some(c)
    ensures Balanced(s, DoReceive, t)
  {
    HandleBalances(s, c);
    assert t == Handle(s.(slot := None), c);
    hide Handle;
  }

  lemma ReportingBalances(s: State, t: State)
    requires Next(s, DoReport, t)
    ensures Balanced(s, DoReport, t)
  {
    ReportBalances(s, s.pc.job, s.pc.result);
    assert t == AfterRun(s, s.pc.job, s.pc.result);
    hide AfterRun;
  }

  lemma QuietBalances(s: State, step: Step, t: State)
    requires Next(s, step, t) && !CallerStep(step) && !step.DoSend? && !step.DoReport?
    requires step.DoReceive? ==> s.slot.None?
    requires !s.pc.LeaveLoop? && !s.pc.LeaveClear?
    ensures t.made == s.made && t.events == s.events && SameHand(s.pc, t.pc)
  {
    hide Handle, AfterRun, SendStep, TryCommand, TrySubmitStep, ClaimStep, Without;
  }

  lemma OneMore(made: seq<ToolEvent>, event: ToolEvent)
    ensures multiset(made + [event]) == multiset(made) + multiset{event}
  {}

  lemma HandleBalances(s: State, c: ToolCommand)
    requires s.pc.Receive? && s.slot == Some(c)
    ensures var t := Handle(s.(slot := None), c);
            t.events == s.events && multiset(t.made) == multiset(s.made) + Hand(t.pc)
  {
    var t := Handle(s.(slot := None), c);
    HandleKeepsEvents(s.(slot := None), c);
    HandleEffect(s, c);
    hide Handle;
    if t.made != s.made { OneMore(s.made, t.pc.event); }
  }

  lemma HandleKeepsEvents(s: State, c: ToolCommand)
    ensures Handle(s, c).events == s.events
  {
    hide Replaced;
  }

  lemma ReportBalances(s: State, job: Job, result: ToolWorker.Result)
    requires s.pc == Report(job, result)
    ensures var t := AfterRun(s, job, result);
            t.events == s.events && multiset(t.made) == multiset(s.made) + Hand(t.pc)
  {
    var t := AfterRun(s, job, result);
    ReportKeepsEvents(s, job, result);
    AfterRunEffect(s, job, result);
    hide AfterRun;
    OneMore(s.made, t.pc.event);
  }

  lemma ReportKeepsEvents(s: State, job: Job, result: ToolWorker.Result)
    ensures AfterRun(s, job, result).events == s.events
  {
    hide Cleared;
  }

  /** Before a shutdown no attempt is the last. */
  predicate NotLast(s: State) {
    s.pc.Send? ==> !s.pc.stage.LastTry?
  }

  lemma NotLastKept(s: State, step: Step, t: State)
    requires Next(s, step, t) && NotLast(s) && !s.shutdown
    ensures NotLast(t)
  {
    if CallerStep(step) {
      CallerStepCompletesNothing(s, step, t);
      hide Next;
    } else if step.DoReceive? && s.slot.Some? {
      HandleLooks(s, s.slot.value);
      hide Handle;
    } else if step.DoReport? {
      ReportLooks(s, s.pc.job, s.pc.result);
      hide AfterRun;
    } else {
      hide Handle, AfterRun;
    }
  }

  lemma HandleLooks(s: State, c: ToolCommand)
    ensures !Handle(s.(slot := None), c).pc.Send? || Handle(s.(slot := None), c).pc.stage == Look(false)
  {
    hide Replaced;
  }

  lemma ReportLooks(s: State, job: Job, result: ToolWorker.Result)
    ensures !AfterRun(s, job, result).pc.Send? || AfterRun(s, job, result).pc.stage == Look(false)
  {
    hide Cleared;
  }

  lemma {:induction false} NotLastAlways(run: seq<State>, steps: seq<Step>, i: nat)
    requires IsRun(run, steps) && i < |run| && !run[i].shutdown
    ensures NotLast(run[i])
  {
    hide Next;
    if i > 0 {
      RunGoesOn(run, steps, i - 1);
      if run[i - 1].shutdown { ShutdownStays(run[i - 1], steps[i - 1], run[i]); }
      NotLastAlways(run, steps, i - 1);
      NotLastKept(run[i - 1], steps[i - 1], run[i]);
    }
  }

  lemma StepBalances(run: seq<State>, steps: seq<Step>, i: nat)
    requires IsRun(run, steps) && i + 1 < |run| && !run[i + 1].shutdown
    ensures |run| == |steps| + 1 && !run[i].shutdown && Balanced(run[i], steps[i], run[i + 1])
  {
    hide Next, Balanced, OneAtATime, TokenIsCurrent;
    RunLength(run, steps);
    RunGoesOn(run, steps, i);
    if run[i].shutdown { ShutdownStays(run[i], steps[i], run[i + 1]); }
    ServingAlways(run, steps, i);
    NotLastAlways(run, steps, i);
    hide IsRun;
    if CallerStep(steps[i]) {
      CallerBalances(run[i], steps[i], run[i + 1]);
    } else {
      WorkerBalances(run[i], steps[i], run[i + 1]);
    }
  }

  /**
   * Before a shutdown every event that was made is in the worker's hand, in the channel, was polled, or was
   * given up, each as often as it was made.
   */
  lemma {:induction false} EventsAreKept(run: seq<State>, steps: seq<Step>, i: nat)
    requires IsRun(run, steps) && |run| == |steps| + 1 && i < |run| && !run[i].shutdown
    ensures multiset(run[i].made)
         == multiset(run[i].events) + Hand(run[i].pc) + Polled(run, steps, i) + GivenUp(run, steps, i)
  {
    hide Next, Hand, PolledBy, GivenUpBy;
    if i > 0 {
      StepBalances(run, steps, i - 1);
      hide IsRun;
      EventsAreKept(run, steps, i - 1);
      BalanceGoesOn(run[i - 1], steps[i - 1], run[i], Polled(run, steps, i - 1), GivenUp(run, steps, i - 1));
      hide Balanced;
    } else {
      NothingInHand();
    }
  }

  lemma BalanceGoesOn(s: State, step: Step, t: State, polled: multiset<ToolEvent>, givenUp: multiset<ToolEvent>)
    requires Balanced(s, step, t) && multiset(s.made) == multiset(s.events) + Hand(s.pc) + polled + givenUp
    ensures multiset(t.made)
         == multiset(t.events) + Hand(t.pc) + (polled + PolledBy(s, step)) + (givenUp + GivenUpBy(s, step, t))
  {
    hide Hand, PolledBy, GivenUpBy;
    var (made, events, hand) := (multiset(t.made), multiset(t.events), Hand(t.pc));
    var (made0, events0, hand0) := (multiset(s.made), multiset(s.events), Hand(s.pc));
    var (p, g) := (PolledBy(s, step), GivenUpBy(s, step, t));
    assert made + events0 + hand0 == made0 + events + hand + p + g;
    hide Balanced;
    TakenAway(made, events0, hand0, made0, events, hand, p, g, polled, givenUp);
  }

  lemma TakenAway(made: multiset<ToolEvent>, events0: multiset<ToolEvent>, hand0: multiset<ToolEvent>,
      made0: multiset<ToolEvent>, events: multiset<ToolEvent>, hand: multiset<ToolEvent>, p: multiset<ToolEvent>,
      g: multiset<ToolEvent>, polled: multiset<ToolEvent>, givenUp: multiset<ToolEvent>)
    requires made + events0 + hand0 == made0 + events + hand + p + g && made0 == events0 + hand0 + polled + givenUp
    ensures made == events + hand + (polled + p) + (givenUp + g)
  {
    forall e: ToolEvent ensures made[e] == (events + hand + (polled + p) + (givenUp + g))[e] {
      assert (made + events0 + hand0)[e] == (made0 + events + hand + p + g)[e];
    }
  }

  lemma NothingInHand()
    ensures Hand(Initial().pc) == multiset{}
  {}

  /** Before a shutdown an event is given up only in a full channel, at a later attempt. */
  lemma GivenUpOnlyWhenFull(run: seq<State>, steps: seq<Step>, i: nat)
    requires IsRun(run, steps) && |run| == |steps| + 1 && i < |steps| && !run[i + 1].shutdown
    requires GivenUpBy(run[i], steps[i], run[i + 1]) != multiset{}
    ensures |run[i].events| >= EVENT_CAPACITY && run[i].pc.stage == Try(true) && steps[i] == DoSend(true)
  {
    hide Next, OneAtATime, TokenIsCurrent;
    RunGoesOn(run, steps, i);
    if run[i].shutdown { ShutdownStays(run[i], steps[i], run[i + 1]); }
    ServingAlways(run, steps, i);
    NotLastAlways(run, steps, i);
    hide IsRun;
    SendDelivers(run[i], steps[i].giveUp, run[i + 1]);
  }

  // Cancelling and leaving

  /** The step cancels the token: by its holder, or as the current one on a shutdown. */
  predicate Cancels(s: State, step: Step, ticket: nat) {
    step == CancelToken(ticket) || (step == CancelCurrent && s.current == Some(ticket))
  }

  lemma CancelTakes(s: State, step: Step, t: State, ticket: nat)
    requires Next(s, step, t) && Cancels(s, step, ticket)
    ensures ticket in t.cancelled
  {
    hide Handle, AfterRun, SendStep;
  }

  /** A job that is cancelled before the last look at its token never completes. */
  lemma CancelKeepsFromCompleting(run: seq<State>, steps: seq<Step>, i: nat, j: nat, ticket: nat)
    requires IsRun(run, steps) && |run| == |steps| + 1 && i < j < |run| && Cancels(run[i], steps[i], ticket)
    requires !LookedClear(run, steps, i + 1, ticket)
    ensures !HasCompleted(run[j].made, ticket)
  {
    hide *;
    RunGoesOn(run, steps, i);
    CancelTakes(run[i], steps[i], run[i + 1], ticket);
    CancelledNeverCompletes(run, steps, i + 1, j, ticket);
  }

  /** Once a shutdown is raised the worker takes up no command, and it leaves nothing behind. */
  lemma ShutdownEndsTheLoop(s: State, step: Step, t: State)
    requires Next(s, step, t)
    ensures step.DoCheck? && s.shutdown ==> t.pc == LeaveLoop
    ensures step.DoLeave? ==> t.pending == None && !t.active && t.pc == LeaveClear
    ensures step.DoLeaveClear? ==> t.current == None && t.slot == None && t.pc == Stopped
    ensures s.pc.Stopped? ==> t.pc.Stopped? && t.slot == s.slot && t.made == s.made
  {
    hide Handle, AfterRun, SendStep;
    if CallerStep(step) { CallerStepCompletesNothing(s, step, t); }
  }
}
