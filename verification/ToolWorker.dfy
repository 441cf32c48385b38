// The worker for PDF tools as a protocol: callers submit, cancel and offer passwords from any
// thread, one worker runs one job at a time and may suspend it to wait for a password.

/** The passwords a request carries, one for each source file. */
module ToolPasswords {
  import opened Wrappers

  type Path = nat
  type Password = nat

  /** The passwords of a request in the order in which their sources were first supplied. */
  type Passwords = seq<(Path, Password)>

  function PasswordFor(ps: Passwords, source: Path): (r: Option<Password>)
    ensures r.Some? <==> exists i :: 0 <= i < |ps| && ps[i].0 == source
    ensures r.Some? ==> (source, r.value) in ps
  {
    if ps == [] then None
    else if ps[0].0 == source then assert ps[0] == (source, ps[0].1); Some(ps[0].1)
    else
      var rest := PasswordFor(ps[1..], source);
      assert rest.Some? ==> exists i :: 0 <= i < |ps[1..]| && ps[1..][i].0 == source && ps[i + 1].0 == source;
      assert forall i :: 1 <= i < |ps| ==> ps[i] == ps[1..][i - 1];
      rest
  }

  function Replaced(ps: Passwords, source: Path, password: Password): Passwords {
    if ps == [] then [(source, password)]
    else if ps[0].0 == source then [(source, password)] + ps[1..]
    else [ps[0]] + Replaced(ps[1..], source, password)
  }

  function Cleared(ps: Passwords, source: Path): Passwords {
    if ps == [] then []
    else
      var rest := Cleared(ps[..|ps| - 1], source);
      if ps[|ps| - 1].0 == source then rest else rest + [ps[|ps| - 1]]
  }

  predicate OneEach(ps: Passwords) {
    forall i, j :: 0 <= i < j < |ps| ==> ps[i].0 != ps[j].0
  }

  /** The first password of the source is replaced in place; without one the new password comes last. */
  lemma {:induction false} ReplacedAt(ps: Passwords, source: Path, password: Password, at: nat)
    requires at <= |ps| && forall j :: 0 <= j < at ==> ps[j].0 != source
    requires at < |ps| ==> ps[at].0 == source
    ensures Replaced(ps, source, password)
         == if at < |ps| then ps[at := (source, password)] else ps + [(source, password)]
  {
    if at > 0 {
      ReplacedAt(ps[1..], source, password, at - 1);
    }
  }

  /** The new password is found under its source, and every other source keeps its own. */
  lemma {:induction false} ReplacedIsFound(ps: Passwords, source: Path, password: Password, other: Path)
    ensures PasswordFor(Replaced(ps, source, password), source) == Some(password)
    ensures other != source ==> PasswordFor(Replaced(ps, source, password), other) == PasswordFor(ps, other)
  {
    if ps != [] {
      if ps[0].0 == source {
        assert ([(source, password)] + ps[1..])[1..] == ps[1..];
      } else {
        ReplacedIsFound(ps[1..], source, password, other);
        var rest := Replaced(ps[1..], source, password);
        assert ([ps[0]] + rest)[1..] == rest;
      }
    }
  }

  lemma {:induction false} ReplacedKeeps(ps: Passwords, source: Path, password: Password)
    requires OneEach(ps)
    ensures OneEach(Replaced(ps, source, password))
    ensures forall p :: p in Replaced(ps, source, password) ==> p == (source, password) || (p in ps && p.0 != source)
    ensures forall p :: p in Replaced(ps, source, password) ==> p.0 == source || exists q :: q in ps && q.0 == p.0
  {
    if ps != [] {
      var (head, tail) := (ps[0], ps[1..]);
      assert ps == [head] + tail;
      if head.0 == source {
        forall p | p in tail ensures p in ps && p.0 != source {
          var i :| 0 <= i < |tail| && tail[i] == p;
          assert ps[i + 1] == p;
        }
        var all := [(source, password)] + tail;
        assert forall i :: 0 < i < |all| ==> all[i] == ps[i];
      } else {
        ReplacedKeeps(tail, source, password);
        var rest := Replaced(tail, source, password);
        forall p | p in rest ensures p.0 != head.0 {
          if p.0 != source {
            var q :| q in tail && q.0 == p.0;
            var i :| 0 <= i < |tail| && tail[i] == q;
            assert ps[i + 1] == q;
          }
        }
        var all := [head] + rest;
        forall i, j | 0 <= i < j < |all| ensures all[i].0 != all[j].0 {
          assert all[j] == rest[j - 1] && rest[j - 1] in rest;
        }
      }
    }
  }

  /** Clearing forgets the source and keeps all else in order. */
  lemma {:induction false} ClearedForgets(ps: Passwords, source: Path)
    ensures forall p :: p in Cleared(ps, source) <==> p in ps && p.0 != source
    ensures OneEach(ps) ==> OneEach(Cleared(ps, source))
  {
    if ps != [] {
      var (front, last) := (ps[..|ps| - 1], ps[|ps| - 1]);
      assert ps == front + [last];
      ClearedForgets(front, source);
      if OneEach(ps) && last.0 != source {
        var (rest, all) := (Cleared(front, source), Cleared(front, source) + [last]);
        assert OneEach(front);
        forall p | p in front ensures p.0 != last.0 {
          var i :| 0 <= i < |front| && front[i] == p;
          assert ps[i] == p;
        }
        forall i, j | 0 <= i < j < |all| ensures all[i].0 != all[j].0 {
          if j == |rest| { assert rest[i] in rest; }
        }
      }
    }
  }

  /** `ToolRequest`, as far as its passwords go. */
  class Request {
    var passwords: Passwords

    constructor ()
      ensures passwords == []
    {
      passwords := [];
    }

    method FindPassword(source: Path) returns (r: Option<Password>)
      ensures r == PasswordFor(passwords, source)
    {
      var i := 0;
      while i < |passwords|
        invariant 0 <= i <= |passwords|
        invariant PasswordFor(passwords, source) == PasswordFor(passwords[i..], source)
      {
        if passwords[i].0 == source {
          return Some(passwords[i].1);
        }
        assert passwords[i..][1..] == passwords[i + 1..];
        i := i + 1;
      }
      return None;
    }

    method ReplacePassword(source: Path, password: Password)
      modifies this
      ensures passwords == Replaced(old(passwords), source, password)
    {
      var i := 0;
      while i < |passwords|
        invariant 0 <= i <= |passwords| && passwords == old(passwords)
        invariant forall j :: 0 <= j < i ==> passwords[j].0 != source
      {
        if passwords[i].0 == source {
          ReplacedAt(passwords, source, password, i);
          passwords := passwords[i := (source, password)];
          return;
        }
        i := i + 1;
      }
      ReplacedAt(passwords, source, password, i);
      passwords := passwords + [(source, password)];
    }

    method ClearPasswordFor(source: Path)
      modifies this
      ensures passwords == Cleared(old(passwords), source)
    {
      var kept: Passwords := [];
      var i := 0;
      while i < |passwords|
        invariant 0 <= i <= |passwords| && passwords == old(passwords)
        invariant kept == Cleared(passwords[..i], source)
      {
        assert passwords[..i + 1][..i] == passwords[..i];
        if passwords[i].0 != source {
          kept := kept + [passwords[i]];
        }
        i := i + 1;
      }
      assert passwords[..i] == passwords;
      passwords := kept;
    }
  }
}

module ToolWorker {
  import opened Wrappers
  import opened ToolPasswords

  /** The identity a caller gives to a job; nothing keeps two jobs from having the same. */
  type Key = nat

  /** A request; its ticket numbers the submissions. */
  datatype Job = Job(ticket: nat, key: Key, passwords: Passwords)

  datatype EventKind = Completed | PasswordRequired(source: Path, wrong: bool) | Cancelled | Failed
  datatype ToolEvent = ToolEvent(ticket: nat, key: Key, kind: EventKind)

  predicate Terminal(event: ToolEvent) {
    !event.kind.PasswordRequired?
  }

  datatype ToolCommand =
    | Start(job: Job)
    | ProvidePassword(key: Key, source: Path, password: Password)
    | Cancel(key: Key)
    | Shutdown

  const EVENT_CAPACITY := 16

  /** A submission that has claimed `active`; after a refused send it still has to give it back. */
  datatype Submission = Submission(job: Job, refused: bool)

  /** Before each attempt the shutdown flag is read; the attempt after it was seen is the last. */
  datatype SendStage = Look(again: bool) | Try(again: bool) | LastTry
  /** What the worker does when the receiver of the events turns out to be gone. */
  datatype OnGone = Ignore | DropPending | Leave

  datatype Pc =
    | Check
    | Receive
    | SetToken(job: Job)
    | Execute(job: Job)
    | Operate(job: Job)
    | LastLook(job: Job)
    | Report(job: Job, result: Result)
    | Deactivate(event: ToolEvent, onGone: OnGone)
    | ClearToken(event: ToolEvent, onGone: OnGone)
    | Send(event: ToolEvent, stage: SendStage, onGone: OnGone)
    | LeaveLoop
    | LeaveClear
    | Stopped

  /** The worker is at the job it has taken up. */
  predicate AtWork(pc: Pc) {
    pc.SetToken? || pc.Execute? || pc.Operate? || pc.LastLook? || pc.Report?
  }

  datatype Suspended = Suspended(job: Job, source: Path, wrong: bool)

  datatype State = State(
    active: bool, slot: Option<ToolCommand>, sender: bool,
    submissions: seq<Submission>, nextTicket: nat, accepted: set<nat>,
    cancelled: set<nat>, current: Option<nat>,
    shutdown: bool,
    pc: Pc, pending: Option<Suspended>,
    events: seq<ToolEvent>, receiver: bool,
    // Every event made, and every password offered for a job and a file.
    made: seq<ToolEvent>, offers: set<(Key, Path, Password)>)

  function Initial(): State {
    State(false, None, true, [], 0, {}, {}, None, false, Check, None, [], true, [], {})
  }

  /** How the operation itself goes; it looks at the token at some points of its own. */
  datatype Outcome = Succeeded | NeedsPassword(source: Path, wrong: bool) | FoundCancelled | Broke | Panicked
  /** What the executor returns, or its panic. */
  datatype Result = RCompleted | RPasswordRequired(source: Path, wrong: bool) | RCancelled | RFailed | RPanicked

  datatype Step =
    // callers
    | Claim(key: Key)
    | TrySubmit(at: nat)
    | GiveBack(at: nat)
    | Offer(key: Key, source: Path, password: Password)
    | CancelToken(ticket: nat)
    | SendCancel(key: Key)
    | Poll
    | RaiseShutdown
    | CancelCurrent
    | CloseSender
    | DropReceiver
    // worker
    | DoCheck
    | DoReceive
    | DoSetToken
    | DoFirstLook
    | DoOperate(outcome: Outcome)
    | DoLastLook
    | DoReport
    | DoDeactivate
    | DoClearToken
    | DoSend(giveUp: bool)
    | DoLeave
    | DoLeaveClear

  function Without(submissions: seq<Submission>, at: nat): seq<Submission>
    requires at < |submissions|
  {
    submissions[..at] + submissions[at + 1..]
  }

  function Made(s: State, event: ToolEvent): State {
    s.(made := s.made + [event])
  }

  function EventOf(job: Job, kind: EventKind): ToolEvent {
    ToolEvent(job.ticket, job.key, kind)
  }

  /** `submit` up to the claim of `active`. */
  function ClaimStep(s: State, key: Key): State {
    if s.active then s
    else
      var submission := Submission(Job(s.nextTicket, key, []), false);
      s.(active := true, submissions := s.submissions + [submission], nextTicket := s.nextTicket + 1)
  }

  function TrySubmitStep(s: State, at: nat): State
    requires at < |s.submissions|
  {
    var job := s.submissions[at].job;
    if s.sender && !s.pc.Stopped? && s.slot.None?
    then s.(slot := Some(Start(job)), submissions := Without(s.submissions, at), accepted := s.accepted + {job.ticket})
    else s.(submissions := s.submissions[at := Submission(job, true)])
  }

  /** A command a caller sends without waiting. */
  function TryCommand(s: State, c: ToolCommand): State {
    if s.sender && !s.pc.Stopped? && s.slot.None? then s.(slot := Some(c)) else s
  }

  /** The worker took up a command. */
  function Handle(s: State, c: ToolCommand): State {
    match c
    case Start(job) => s.(pc := SetToken(job))
    case ProvidePassword(key, source, password) =>
      (match s.pending
       case None => s.(pc := Check)
       case Some(p) =>
         if p.job.key != key || p.source != source then
           var event := EventOf(p.job, PasswordRequired(p.source, p.wrong));
           Made(s, event).(pc := Send(event, Look(false), Leave))
         else
           s.(pending := None, pc := SetToken(p.job.(passwords := Replaced(p.job.passwords, source, password)))))
    case Cancel(key) =>
      if s.pending.Some? && s.pending.value.job.key == key then
        var event := EventOf(s.pending.value.job, Cancelled);
        Made(s, event).(pending := None, pc := Deactivate(event, Leave))
      else s.(pc := Check)
    case Shutdown => s.(pc := LeaveLoop)
  }

  predicate TokenCancelled(s: State, job: Job) {
    job.ticket in s.cancelled
  }

  /** `execute_request` once the operation has returned: only a success is followed by another look at the token. */
  function AfterOperation(job: Job, outcome: Outcome): Pc {
    match outcome
    case Succeeded => LastLook(job)
    case NeedsPassword(source, wrong) => Report(job, RPasswordRequired(source, wrong))
    case FoundCancelled => Report(job, RCancelled)
    case Broke => Report(job, RFailed)
    case Panicked => Report(job, RPanicked)
  }

  /** `run_and_emit` after the executor has returned or panicked. */
  function AfterRun(s: State, job: Job, result: Result): State {
    match result
    case RCompleted => var event := EventOf(job, Completed); Made(s, event).(pc := Deactivate(event, Ignore))
    case RCancelled => var event := EventOf(job, Cancelled); Made(s, event).(pc := Deactivate(event, Ignore))
    case RFailed => var event := EventOf(job, Failed); Made(s, event).(pc := Deactivate(event, Ignore))
    case RPanicked =>
      var event := EventOf(job, Failed);
      Made(s, event).(pending := None, pc := Deactivate(event, Ignore))
    case RPasswordRequired(source, wrong) =>
      var kept := if wrong then job.(passwords := Cleared(job.passwords, source)) else job;
      var event := EventOf(job, PasswordRequired(source, wrong));
      Made(s, event).(pending := Some(Suspended(kept, source, wrong)), pc := Send(event, Look(false), DropPending))
  }

  /** `send_event`: one look at the shutdown flag or one attempt. */
  function SendStep(s: State, giveUp: bool): State
    requires s.pc.Send?
  {
    var (event, stage, onGone) := (s.pc.event, s.pc.stage, s.pc.onGone);
    var room := s.receiver && |s.events| < EVENT_CAPACITY;
    match stage
    case Look(again) => s.(pc := Send(event, if s.shutdown then LastTry else Try(again), onGone))
    case LastTry => if room then s.(events := s.events + [event], pc := Check) else s.(pc := Check)
    case Try(again) =>
      if room then s.(events := s.events + [event], pc := Check)
      else if s.receiver then s.(pc := if again && giveUp then Check else Send(event, Look(true), onGone))
      else
        match onGone
        case Ignore => s.(pc := Check)
        case DropPending => s.(pending := None, pc := Check)
        case Leave => s.(pc := LeaveLoop)
  }

  predicate Next(s: State, step: Step, t: State) {
    match step
    case Claim(key) => t == ClaimStep(s, key)
    case TrySubmit(at) => at < |s.submissions| && !s.submissions[at].refused && t == TrySubmitStep(s, at)
    case GiveBack(at) =>
      && at < |s.submissions| && s.submissions[at].refused
      && t == s.(active := false, submissions := Without(s.submissions, at))
    case Offer(key, source, password) =>
      t == TryCommand(s, ProvidePassword(key, source, password)).(offers := s.offers + {(key, source, password)})
    case CancelToken(ticket) => t == s.(cancelled := s.cancelled + {ticket})
    case SendCancel(key) => t == TryCommand(s, Cancel(key))
    case Poll => s.receiver && s.events != [] && t == s.(events := s.events[1..])
    // Shutting down borrows the worker alone: no submission is under way.
    case RaiseShutdown => s.submissions == [] && t == s.(shutdown := true)
    case CancelCurrent =>
      && s.shutdown
      && t == (if s.current.Some? then s.(cancelled := s.cancelled + {s.current.value}) else s)
    case CloseSender => s.shutdown && t == TryCommand(s, Shutdown).(sender := false)
    case DropReceiver => s.shutdown && !s.sender && t == s.(receiver := false, events := [])
    case DoCheck => s.pc.Check? && t == s.(pc := if s.shutdown then LeaveLoop else Receive)
    case DoReceive =>
      && s.pc.Receive?
      && (s.slot.Some? || !s.sender)
      && t == (if s.slot.Some? then Handle(s.(slot := None), s.slot.value) else s.(pc := LeaveLoop))
    case DoSetToken => s.pc.SetToken? && t == s.(current := Some(s.pc.job.ticket), pc := Execute(s.pc.job))
    case DoFirstLook =>
      && s.pc.Execute?
      && var job := s.pc.job;
         t == s.(pc := if TokenCancelled(s, job) then Report(job, RCancelled) else Operate(job))
    case DoOperate(outcome) =>
      && s.pc.Operate? && (outcome.FoundCancelled? ==> TokenCancelled(s, s.pc.job))
      && t == s.(pc := AfterOperation(s.pc.job, outcome))
    case DoLastLook =>
      && s.pc.LastLook?
      && t == s.(pc := Report(s.pc.job, if TokenCancelled(s, s.pc.job) then RCancelled else RCompleted))
    case DoReport => s.pc.Report? && t == AfterRun(s, s.pc.job, s.pc.result)
    case DoDeactivate => s.pc.Deactivate? && t == s.(active := false, pc := ClearToken(s.pc.event, s.pc.onGone))
    case DoClearToken => s.pc.ClearToken? && t == s.(current := None, pc := Send(s.pc.event, Look(false), s.pc.onGone))
    case DoSend(giveUp) => s.pc.Send? && t == SendStep(s, giveUp)
    case DoLeave => s.pc.LeaveLoop? && t == s.(pending := None, active := false, pc := LeaveClear)
    case DoLeaveClear => s.pc.LeaveClear? && t == s.(current := None, slot := None, pc := Stopped)
  }

  ghost predicate IsRun(run: seq<State>, steps: seq<Step>) {
    && |run| == |steps| + 1
    && run[0] == Initial()
    && forall i :: 0 <= i < |steps| ==> Next(run[i], steps[i], run[i + 1])
  }

  // The jobs that are not over

  /** How many submissions of the job with this ticket are under way. */
  function Submitted(submissions: seq<Submission>, ticket: nat): nat {
    if submissions == [] then 0
    else (if submissions[0].job.ticket == ticket then 1 else 0) + Submitted(submissions[1..], ticket)
  }

  function Queued(slot: Option<ToolCommand>, ticket: nat): nat {
    if slot.Some? && slot.value.Start? && slot.value.job.ticket == ticket then 1 else 0
  }

  function Running(pc: Pc, ticket: nat): nat {
    if AtWork(pc) && pc.job.ticket == ticket then 1 else 0
  }

  function Waiting(pending: Option<Suspended>, ticket: nat): nat {
    if pending.Some? && pending.value.job.ticket == ticket then 1 else 0
  }

  /** How often the job with this ticket is queued, running or waiting for a password. */
  function Open(s: State, ticket: nat): nat {
    Queued(s.slot, ticket) + Running(s.pc, ticket) + Waiting(s.pending, ticket)
  }

  // Before a shutdown

  /** How many jobs are queued, running or waiting for a password. */
  function OpenCount(slot: Option<ToolCommand>, pc: Pc, pending: Option<Suspended>): nat {
    (if slot.Some? && slot.value.Start? then 1 else 0)
    + (if AtWork(pc) then 1 else 0)
    + (if pending.Some? then 1 else 0)
  }

  /** `active` says exactly whether a job is being submitted, open or just ending, and there is never a second one. */
  predicate OneAtATime(s: State) {
    |s.submissions| + OpenCount(s.slot, s.pc, s.pending) + (if s.pc.Deactivate? then 1 else 0)
      == (if s.active then 1 else 0)
  }

  /** The token of the job that runs or waits is the current one. */
  predicate TokenIsCurrent(s: State) {
    && (AtWork(s.pc) && !s.pc.SetToken? ==> s.current == Some(s.pc.job.ticket))
    && (s.pending.Some? ==> s.current == Some(s.pending.value.job.ticket) && !s.pc.ClearToken?)
  }

  predicate Serving(s: State) {
    && s.sender && s.receiver && !s.pc.LeaveLoop? && !s.pc.LeaveClear? && !s.pc.Stopped?
    && s.slot != Some(Shutdown)
    && OneAtATime(s) && TokenIsCurrent(s)
  }

  predicate CallerStep(step: Step) {
    || step.Claim? || step.TrySubmit? || step.GiveBack? || step.Offer? || step.CancelToken? || step.SendCancel?
    || step.Poll? || step.RaiseShutdown? || step.CancelCurrent? || step.CloseSender? || step.DropReceiver?
  }

  lemma CallerStepServes(s: State, step: Step, t: State)
    requires Next(s, step, t) && CallerStep(step) && Serving(s) && !s.shutdown && !t.shutdown
    ensures Serving(t)
  {}

  lemma HandleServes(s: State, c: ToolCommand)
    requires Serving(s) && s.pc.Receive? && s.slot == Some(c)
    ensures Serving(Handle(s.(slot := None), c))
  {
    hide Replaced;
  }

  lemma AfterRunServes(s: State)
    requires Serving(s) && s.pc.Report?
    ensures Serving(AfterRun(s, s.pc.job, s.pc.result))
  {
    hide Cleared;
  }

  lemma SendServes(s: State, giveUp: bool)
    requires Serving(s) && s.pc.Send? && !s.shutdown
    ensures Serving(SendStep(s, giveUp))
  {}

  lemma ServingKept(s: State, step: Step, t: State)
    requires Next(s, step, t) && Serving(s) && !s.shutdown && !t.shutdown
    ensures Serving(t)
  {
    if CallerStep(step) {
      CallerStepServes(s, step, t);
      hide Next, Serving;
    } else {
      hide Handle, AfterRun, SendStep;
      match step {
        case DoReceive => HandleServes(s, s.slot.value);
        case DoReport => AfterRunServes(s);
        case DoSend(giveUp) => SendServes(s, giveUp);
        case _ =>
      }
    }
  }

  // The ledger of tickets

  /** How many terminal events the job with this ticket has made. */
  function Ended(made: seq<ToolEvent>, ticket: nat): nat {
    if made == [] then 0
    else
      var last := made[|made| - 1];
      Ended(made[..|made| - 1], ticket) + if Terminal(last) && last.ticket == ticket then 1 else 0
  }

  /** How often the job stands in the ledger: open or ended. */
  function Booked(s: State, ticket: nat): nat {
    Open(s, ticket) + Ended(s.made, ticket)
  }

  lemma EndedGrows(made: seq<ToolEvent>, event: ToolEvent, ticket: nat)
    ensures Ended(made + [event], ticket)
         == Ended(made, ticket) + if Terminal(event) && event.ticket == ticket then 1 else 0
  {
    assert (made + [event])[..|made|] == made;
  }

  lemma {:induction false} SubmittedWithout(subs: seq<Submission>, at: nat, ticket: nat)
    requires at < |subs|
    ensures Submitted(subs, ticket) == (if subs[at].job.ticket == ticket then 1 else 0)
              + Submitted(Without(subs, at), ticket)
    ensures Submitted(subs[at := Submission(subs[at].job, true)], ticket) == Submitted(subs, ticket)
  {
    var refused := subs[at := Submission(subs[at].job, true)];
    if at == 0 {
      assert Without(subs, 0) == subs[1..] && refused[1..] == subs[1..];
    } else {
      SubmittedWithout(subs[1..], at - 1, ticket);
      assert Without(subs, at)[1..] == Without(subs[1..], at - 1);
      assert refused[1..] == subs[1..][at - 1 := Submission(subs[at].job, true)];
    }
  }

  lemma {:induction false} SubmittedGrows(subs: seq<Submission>, sub: Submission, ticket: nat)
    ensures Submitted(subs + [sub], ticket) == Submitted(subs, ticket) + if sub.job.ticket == ticket then 1 else 0
  {
    if subs != [] {
      SubmittedGrows(subs[1..], sub, ticket);
      assert (subs + [sub])[1..] == subs[1..] + [sub];
    } else {
      assert (subs + [sub])[1..] == [];
    }
  }

  /**
   * What a step may do to the ledger entry of a job: a claim opens the next ticket, a submission
   * taken becomes an open job, and while the worker serves no open or ended job is lost.
   */
  predicate Keeps(s: State, t: State, x: nat) {
    && s.nextTicket <= t.nextTicket <= s.nextTicket + 1
    && Submitted(t.submissions, x) + Booked(t, x)
       <= Submitted(s.submissions, x) + Booked(s, x) + (if s.nextTicket == x < t.nextTicket then 1 else 0)
    && (Serving(s) && !s.shutdown ==> Booked(s, x) <= Booked(t, x))
    && (x in t.accepted ==> x in s.accepted || Booked(t, x) > 0)
  }

  /** What concerns neither the ledger nor the callers stays. */
  predicate SameCallers(s: State, t: State) {
    t.submissions == s.submissions && t.nextTicket == s.nextTicket && t.accepted == s.accepted
  }

  lemma KeepsIf(s: State, t: State, x: nat)
    requires SameCallers(s, t) && Booked(t, x) <= Booked(s, x)
    requires Serving(s) && !s.shutdown ==> Booked(t, x) == Booked(s, x)
    ensures Keeps(s, t, x)
  {
    hide Submitted, Booked, Serving;
  }

  lemma HandleEffect(s: State, c: ToolCommand)
    requires s.pc.Receive? && s.slot == Some(c)
    ensures var t := Handle(s.(slot := None), c);
      && SameCallers(s, t) && t.slot == None && t.shutdown == s.shutdown
      && match c
         case Start(job) => t.pc == SetToken(job) && t.pending == s.pending && t.made == s.made
         case Cancel(key) =>
           if s.pending.Some? && s.pending.value.job.key == key then
             var event := EventOf(s.pending.value.job, Cancelled);
             t.pending == None && t.made == s.made + [event] && t.pc == Deactivate(event, Leave)
           else t.pending == s.pending && t.made == s.made && t.pc == Check
         case ProvidePassword(_, _, _) =>
           || (t.pending == s.pending && t.made == s.made && t.pc == Check)
           || (s.pending.Some? && t.pc.Send? && t.pending == s.pending && t.made == s.made + [t.pc.event]
                && !Terminal(t.pc.event))
           || (s.pending.Some? && t.pc.SetToken? && t.pc.job.ticket == s.pending.value.job.ticket && t.pending == None
                && t.made == s.made)
         case Shutdown => t.pending == s.pending && t.made == s.made && t.pc == LeaveLoop
  {
    if c.ProvidePassword? {
      ProvideEffect(s, c.key, c.source, c.password);
      hide Handle;
    } else {
      hide Replaced;
    }
  }

  lemma ProvideEffect(s: State, key: Key, source: Path, password: Password)
    ensures var t := Handle(s.(slot := None), ProvidePassword(key, source, password));
      && SameCallers(s, t) && t.slot == None && t.shutdown == s.shutdown
      && (|| (t.pending == s.pending && t.made == s.made && t.pc == Check)
          || (s.pending.Some? && t.pc.Send? && t.pending == s.pending && t.made == s.made + [t.pc.event]
              && !Terminal(t.pc.event))
          || (s.pending.Some? && t.pc.SetToken? && t.pc.job.ticket == s.pending.value.job.ticket && t.pending == None
              && t.made == s.made))
  {
    hide Replaced;
  }

  lemma HandleKeeps(s: State, c: ToolCommand, x: nat)
    requires s.pc.Receive? && s.slot == Some(c)
    ensures Keeps(s, Handle(s.(slot := None), c), x)
  {
    hide Handle, Ended, Serving, Keeps;
    var t := Handle(s.(slot := None), c);
    HandleEffect(s, c);
    if t.made != s.made {
      var event := if t.pc.Send? then t.pc.event else EventOf(s.pending.value.job, Cancelled);
      EndedGrows(s.made, event, x);
    }
    KeepsIf(s, t, x);
  }

  lemma AfterRunEffect(s: State, job: Job, result: Result)
    requires s.pc == Report(job, result)
    ensures var t := AfterRun(s, job, result);
      && SameCallers(s, t) && t.slot == s.slot && t.shutdown == s.shutdown
      && match result
         case RCompleted =>
           && t.pc == Deactivate(EventOf(job, Completed), Ignore) && t.pending == s.pending
           && t.made == s.made + [t.pc.event]
         case RCancelled =>
           && t.pc == Deactivate(EventOf(job, Cancelled), Ignore) && t.pending == s.pending
           && t.made == s.made + [t.pc.event]
         case RFailed =>
           && t.pc == Deactivate(EventOf(job, Failed), Ignore) && t.pending == s.pending
           && t.made == s.made + [t.pc.event]
         case RPanicked =>
           && t.pc == Deactivate(EventOf(job, Failed), Ignore) && t.pending == None
           && t.made == s.made + [t.pc.event]
         case RPasswordRequired(source, wrong) =>
           && t.pc.Send? && t.pc.event == EventOf(job, PasswordRequired(source, wrong))
                && t.made == s.made + [t.pc.event]
           && t.pending.Some? && t.pending.value.job.ticket == job.ticket
  {
    hide Cleared;
  }

  lemma AtWorkIsAlone(s: State)
    requires Serving(s) ==> AtWork(s.pc)
    ensures Serving(s) ==> s.pending.None?
  {}

  lemma AfterRunKeeps(s: State, x: nat)
    requires s.pc.Report?
    ensures Keeps(s, AfterRun(s, s.pc.job, s.pc.result), x)
  {
    hide AfterRun, Ended, Serving, Keeps;
    var t := AfterRun(s, s.pc.job, s.pc.result);
    AfterRunEffect(s, s.pc.job, s.pc.result);
    AtWorkIsAlone(s);
    EndedGrows(s.made, t.pc.event, x);
    KeepsIf(s, t, x);
  }

  lemma SendEffect(s: State, giveUp: bool)
    requires s.pc.Send?
    ensures var t := SendStep(s, giveUp);
            && SameCallers(s, t) && t.slot == s.slot && t.made == s.made && t.shutdown == s.shutdown
            && !AtWork(t.pc)
            && (t.pending == s.pending || (t.pending == None && !s.receiver))
  {}

  lemma SendKeeps(s: State, giveUp: bool, x: nat)
    requires s.pc.Send?
    ensures Keeps(s, SendStep(s, giveUp), x)
  {
    SendEffect(s, giveUp);
    assert Serving(s) ==> s.receiver;
    hide SendStep, Ended, Serving, Keeps, Queued;
    KeepsIf(s, SendStep(s, giveUp), x);
  }

  lemma ClaimKeeps(s: State, key: Key, x: nat)
    ensures Keeps(s, ClaimStep(s, key), x)
  {
    SubmittedGrows(s.submissions, Submission(Job(s.nextTicket, key, []), false), x);
    hide Ended, Submitted, Serving, Queued, Running, Waiting;
  }

  lemma TrySubmitKeeps(s: State, at: nat, x: nat)
    requires at < |s.submissions|
    ensures Keeps(s, TrySubmitStep(s, at), x)
  {
    SubmittedWithout(s.submissions, at, x);
    hide Ended, Submitted, Without, Serving, Running, Waiting;
  }

  lemma GiveBackKeeps(s: State, at: nat, x: nat)
    requires at < |s.submissions| && s.submissions[at].refused
    ensures Keeps(s, s.(active := false, submissions := Without(s.submissions, at)), x)
  {
    SubmittedWithout(s.submissions, at, x);
    hide Ended, Submitted, Without, Serving, Queued, Running, Waiting;
  }

  /** The other steps move no job, or end the worker. */
  lemma QuietEffect(s: State, step: Step, t: State)
    requires Next(s, step, t) && !step.Claim? && !step.TrySubmit? && !step.GiveBack?
    requires !step.DoReport? && !step.DoSend? && (step.DoReceive? ==> s.slot.None?)
    ensures SameCallers(s, t) && t.made == s.made
    ensures s.pc.LeaveLoop? || s.pc.LeaveClear?
              || (t.pending == s.pending && forall x :: Queued(t.slot, x) == Queued(s.slot, x))
    ensures t.pending == s.pending || t.pending == None
    ensures t.slot == None || t.slot == s.slot || !t.slot.value.Start?
    ensures forall x :: Running(t.pc, x) == Running(s.pc, x)
  {
    hide Handle, AfterRun, SendStep, ClaimStep, TrySubmitStep, TryCommand, Without, Queued, Running;
    if CallerStep(step) {
      QuietCallerEffect(s, step, t);
      hide Next;
    } else {
      QuietWorkerEffect(s, step, t);
      hide Next;
    }
  }

  lemma QuietCallerEffect(s: State, step: Step, t: State)
    requires Next(s, step, t) && CallerStep(step) && !step.Claim? && !step.TrySubmit? && !step.GiveBack?
    ensures SameCallers(s, t) && t.made == s.made && t.pc == s.pc && t.pending == s.pending
    ensures t.slot == s.slot || (s.slot == None && !t.slot.value.Start?)
    ensures forall x :: Queued(t.slot, x) == Queued(s.slot, x)
  {
    hide Handle, AfterRun, SendStep, ClaimStep, TrySubmitStep, TryCommand, Without;
    match step {
      case Offer(key, source, password) => QuietCommand(s, ProvidePassword(key, source, password));
      case SendCancel(key) => QuietCommand(s, Cancel(key));
      case CloseSender => QuietCommand(s, Shutdown);
      case _ =>
    }
  }

  lemma QuietCommand(s: State, c: ToolCommand)
    requires !c.Start?
    ensures var t := TryCommand(s, c);
            t == s.(slot := t.slot) && (t.slot == s.slot || (s.slot == None && t.slot == Some(c)))
  {}

  lemma QuietWorkerEffect(s: State, step: Step, t: State)
    requires Next(s, step, t) && !CallerStep(step)
    requires !step.DoReport? && !step.DoSend? && (step.DoReceive? ==> s.slot.None?)
    ensures SameCallers(s, t) && t.made == s.made && (t.pending == s.pending || t.pending == None)
    ensures s.pc.LeaveLoop? || s.pc.LeaveClear? || (t.pending == s.pending && t.slot == s.slot)
    ensures t.slot == None || t.slot == s.slot
    ensures forall x :: Running(t.pc, x) == Running(s.pc, x)
  {
    hide Handle, AfterRun, SendStep, ClaimStep, TrySubmitStep, TryCommand, Without;
  }

  lemma QuietKeeps(s: State, step: Step, t: State, x: nat)
    requires Next(s, step, t) && !step.Claim? && !step.TrySubmit? && !step.GiveBack?
    requires !step.DoReport? && !step.DoSend? && (step.DoReceive? ==> s.slot.None?)
    ensures Keeps(s, t, x)
  {
    QuietEffect(s, step, t);
    assert s.pc.LeaveLoop? || s.pc.LeaveClear? ==> !Serving(s);
    hide Next, Ended, Serving, Keeps;
    KeepsIf(s, t, x);
  }

  lemma StepKeeps(s: State, step: Step, t: State, x: nat)
    requires Next(s, step, t)
    ensures Keeps(s, t, x)
  {
    hide Keeps, Handle, AfterRun, SendStep, TryCommand, TrySubmitStep, ClaimStep;
    match step {
      case Claim(key) => ClaimKeeps(s, key, x);
      case TrySubmit(at) => TrySubmitKeeps(s, at, x);
      case GiveBack(at) => GiveBackKeeps(s, at, x);
      case DoReceive => if s.slot.Some? { HandleKeeps(s, s.slot.value, x); } else { QuietKeeps(s, step, t, x); }
      case DoReport => AfterRunKeeps(s, x);
      case DoSend(giveUp) => SendKeeps(s, giveUp, x);
      case _ => QuietKeeps(s, step, t, x);
    }
  }

  /** A job stands in the ledger at most once, and not before its ticket is given out. */
  predicate Once(s: State, x: nat) {
    Submitted(s.submissions, x) + Booked(s, x) <= (if x < s.nextTicket then 1 else 0)
  }

  // Whole runs

  lemma RunLength(run: seq<State>, steps: seq<Step>)
    requires IsRun(run, steps)
    ensures |run| == |steps| + 1
  {
    hide Next;
  }

  lemma RunGoesOn(run: seq<State>, steps: seq<Step>, i: nat)
    requires IsRun(run, steps) && i < |steps|
    ensures |run| == |steps| + 1 && Next(run[i], steps[i], run[i + 1])
  {
    hide Next;
  }

  lemma ShutdownStays(s: State, step: Step, t: State)
    requires Next(s, step, t) && s.shutdown
    ensures t.shutdown
  {
    if step.DoReceive? && s.slot.Some? { HandleEffect(s, s.slot.value); }
    if step.DoReport? { AfterRunEffect(s, s.pc.job, s.pc.result); }
    if step.DoSend? { SendEffect(s, step.giveUp); }
    hide Handle, AfterRun, SendStep, Replaced, Cleared;
  }

  lemma {:induction false} OnceAlways(run: seq<State>, steps: seq<Step>, i: nat, x: nat)
    requires IsRun(run, steps) && i < |run|
    ensures Once(run[i], x)
  {
    hide Next;
    if i > 0 {
      OnceAlways(run, steps, i - 1, x);
      RunGoesOn(run, steps, i - 1);
      StepKeeps(run[i - 1], steps[i - 1], run[i], x);
      hide IsRun, Booked, Submitted, Serving;
    }
  }

  lemma {:induction false} ServingAlways(run: seq<State>, steps: seq<Step>, i: nat)
    requires IsRun(run, steps) && i < |run| && !run[i].shutdown
    ensures Serving(run[i])
  {
    if i > 0 {
      hide Serving, Next;
      RunGoesOn(run, steps, i - 1);
      if run[i - 1].shutdown { ShutdownStays(run[i - 1], steps[i - 1], run[i]); }
      ServingAlways(run, steps, i - 1);
      ServingKept(run[i - 1], steps[i - 1], run[i]);
    }
  }

  lemma {:induction false} AcceptedIsBooked(run: seq<State>, steps: seq<Step>, i: nat, x: nat)
    requires IsRun(run, steps) && i < |run| && !run[i].shutdown && x in run[i].accepted
    ensures Booked(run[i], x) > 0
  {
    if i > 0 {
      hide Serving, Next, Booked, Submitted;
      RunGoesOn(run, steps, i - 1);
      if run[i - 1].shutdown { ShutdownStays(run[i - 1], steps[i - 1], run[i]); }
      ServingAlways(run, steps, i - 1);
      StepKeeps(run[i - 1], steps[i - 1], run[i], x);
      if x in run[i - 1].accepted { AcceptedIsBooked(run, steps, i - 1, x); }
    }
  }

  /**
   * Before a shutdown `active` is set exactly while one job is being submitted, queued, running,
   * ending or waiting for a password, and there is never a second.
   */
  lemma ActiveMeansOneJob(run: seq<State>, steps: seq<Step>, i: nat)
    requires IsRun(run, steps) && i < |run| && !run[i].shutdown
    ensures |run[i].submissions| + OpenCount(run[i].slot, run[i].pc, run[i].pending)
              + (if run[i].pc.Deactivate? then 1 else 0)
         == if run[i].active then 1 else 0
  {
    ServingAlways(run, steps, i);
    hide IsRun, OpenCount, TokenIsCurrent;
  }

  /** Before a shutdown every accepted job is open or has made exactly one terminal event, never both. */
  lemma AcceptedJobsEndOnce(run: seq<State>, steps: seq<Step>, i: nat, ticket: nat)
    requires IsRun(run, steps) && i < |run| && !run[i].shutdown && ticket in run[i].accepted
    ensures Open(run[i], ticket) + Ended(run[i].made, ticket) == 1
  {
    AcceptedIsBooked(run, steps, i, ticket);
    OnceAlways(run, steps, i, ticket);
    hide IsRun, Open, Ended, Submitted;
  }

  /** In every run, shut down or not, a job makes at most one terminal event, and none while it is open. */
  lemma AtMostOneTerminalEvent(run: seq<State>, steps: seq<Step>, i: nat, ticket: nat)
    requires IsRun(run, steps) && i < |run|
    ensures Ended(run[i].made, ticket) <= 1
    ensures Open(run[i], ticket) > 0 ==> Ended(run[i].made, ticket) == 0
  {
    OnceAlways(run, steps, i, ticket);
    hide IsRun, Open, Ended, Submitted;
  }

  // Passwords

  /** The worker asked for the password of this file for this job. */
  ghost predicate Asked(made: seq<ToolEvent>, ticket: nat, source: Path) {
    exists i :: 0 <= i < |made| && made[i].ticket == ticket && made[i].kind.PasswordRequired?
      && made[i].kind.source == source
  }

  /** Every password of the job was offered for its key and for a file the job had asked for, one for each file. */
  ghost predicate JobSound(offers: set<(Key, Path, Password)>, made: seq<ToolEvent>, job: Job) {
    && OneEach(job.passwords)
    && forall p :: p in job.passwords ==> (job.key, p.0, p.1) in offers && Asked(made, job.ticket, p.0)
  }

  ghost predicate PcSound(s: State) {
    AtWork(s.pc) ==> JobSound(s.offers, s.made, s.pc.job)
  }

  ghost predicate PendingSound(s: State) {
    s.pending.Some? ==>
      var p := s.pending.value;
      && JobSound(s.offers, s.made, p.job) && Asked(s.made, p.job.ticket, p.source)
      && (p.wrong ==> forall q :: q in p.job.passwords ==> q.0 != p.source)
  }

  predicate SubmissionsSound(submissions: seq<Submission>) {
    forall i :: 0 <= i < |submissions| ==> submissions[i].job.passwords == []
  }

  predicate CommandSound(c: ToolCommand, offers: set<(Key, Path, Password)>) {
    && (c.Start? ==> c.job.passwords == [])
    && (c.ProvidePassword? ==> (c.key, c.source, c.password) in offers)
  }

  predicate SlotSound(s: State) {
    SubmissionsSound(s.submissions) && (s.slot.Some? ==> CommandSound(s.slot.value, s.offers))
  }

  ghost predicate PasswordsSound(s: State) {
    PcSound(s) && PendingSound(s) && SlotSound(s)
  }

  lemma AskedLater(made: seq<ToolEvent>, later: seq<ToolEvent>, ticket: nat, source: Path)
    requires Asked(made, ticket, source) && made <= later
    ensures Asked(later, ticket, source)
  {
    var i :| 0 <= i < |made| && made[i].ticket == ticket && made[i].kind.PasswordRequired?
      && made[i].kind.source == source;
    assert later[i] == made[i];
  }

  lemma AskedNow(made: seq<ToolEvent>, event: ToolEvent)
    requires event.kind.PasswordRequired?
    ensures Asked(made + [event], event.ticket, event.kind.source)
  {
    assert (made + [event])[|made|] == event;
  }

  lemma JobSoundLater(offers: set<(Key, Path, Password)>, more: set<(Key, Path, Password)>, made: seq<ToolEvent>,
      later: seq<ToolEvent>, job: Job)
    requires JobSound(offers, made, job) && offers <= more && made <= later
    ensures JobSound(more, later, job)
  {
    forall p | p in job.passwords ensures Asked(later, job.ticket, p.0) { AskedLater(made, later, job.ticket, p.0); }
  }

  /** A job resumed with the password it asked for is sound. */
  lemma ResumedIsSound(s: State, key: Key, source: Path, password: Password)
    requires PendingSound(s) && s.pending.Some? && s.pending.value.job.key == key && s.pending.value.source == source
    requires (key, source, password) in s.offers
    ensures var job := s.pending.value.job;
            JobSound(s.offers, s.made, job.(passwords := Replaced(job.passwords, source, password)))
  {
    ReplacedKeeps(s.pending.value.job.passwords, source, password);
    hide Replaced, OneEach;
  }

  lemma SoundWithPc(s: State, t: State)
    requires PasswordsSound(s) && s.made <= t.made && t.offers == s.offers
               && (t.pending.Some? ==> t.pending == s.pending)
    requires PcSound(t) && SlotSound(t)
    ensures PasswordsSound(t)
  {
    if t.pending.Some? {
      var p := t.pending.value;
      JobSoundLater(s.offers, t.offers, s.made, t.made, p.job);
      AskedLater(s.made, t.made, p.job.ticket, p.source);
    }
    hide JobSound, Asked, SlotSound, PcSound;
  }

  lemma HandleSound(s: State, c: ToolCommand)
    requires PasswordsSound(s) && s.pc.Receive? && s.slot == Some(c)
    ensures PasswordsSound(Handle(s.(slot := None), c))
  {
    var t := Handle(s.(slot := None), c);
    HandleEffect(s, c);
    if c.Start? { FreshJobSound(t.offers, t.made, c.job); }
    if c.ProvidePassword? && s.pending.Some? && s.pending.value.job.key == c.key && s.pending.value.source == c.source {
      ResumedIsSound(s, c.key, c.source, c.password);
    }
    hide Asked, Replaced, JobSound;
    assert t.offers == s.offers && s.made <= t.made;
    assert PcSound(t);
    assert SlotSound(t);
    hide Handle, SlotSound, PcSound;
    SoundWithPc(s, t);
  }

  lemma FreshJobSound(offers: set<(Key, Path, Password)>, made: seq<ToolEvent>, job: Job)
    requires job.passwords == []
    ensures JobSound(offers, made, job)
  {}

  lemma AfterRunSound(s: State, job: Job, result: Result)
    requires PasswordsSound(s) && s.pc == Report(job, result)
    ensures PasswordsSound(AfterRun(s, job, result))
  {
    var t := AfterRun(s, job, result);
    hide Asked, JobSound, Cleared;
    AfterRunEffect(s, job, result);
    assert s.made <= t.made && t.offers == s.offers && PcSound(t);
    assert SlotSound(t);
    hide SlotSound, PcSound;
    if result.RPasswordRequired? {
      SuspendedIsSound(s.offers, s.made, job, result.source, result.wrong);
    } else {
      hide AfterRun;
      SoundWithPc(s, t);
    }
  }

  /** A job that asks for a password keeps the others and forgets a wrong one. */
  lemma SuspendedIsSound(offers: set<(Key, Path, Password)>, made: seq<ToolEvent>, job: Job, source: Path, wrong: bool)
    requires JobSound(offers, made, job)
    ensures var kept := if wrong then job.(passwords := Cleared(job.passwords, source)) else job;
            var later := made + [EventOf(job, PasswordRequired(source, wrong))];
            && JobSound(offers, later, kept) && Asked(later, kept.ticket, source)
            && (wrong ==> forall q :: q in kept.passwords ==> q.0 != source)
  {
    var later := made + [EventOf(job, PasswordRequired(source, wrong))];
    ClearedForgets(job.passwords, source);
    AskedNow(made, EventOf(job, PasswordRequired(source, wrong)));
    JobSoundLater(offers, offers, made, later, job);
    hide Cleared, OneEach, Asked;
  }

  /** The other steps change no job. */
  predicate LeavesJobs(s: State, t: State) {
    && t.made == s.made && s.offers <= t.offers
    && (AtWork(t.pc) ==> AtWork(s.pc) && t.pc.job == s.pc.job)
    && (t.pending.Some? ==> t.pending == s.pending)
  }

  lemma CallerStepLeaves(s: State, step: Step, t: State)
    requires Next(s, step, t) && CallerStep(step)
    ensures LeavesJobs(s, t)
  {}

  lemma CallerStepKeepsSlot(s: State, step: Step, t: State)
    requires Next(s, step, t) && CallerStep(step) && SlotSound(s)
    ensures SlotSound(t)
  {
    hide TryCommand, TrySubmitStep, ClaimStep, Handle, AfterRun, SendStep, Without, SubmissionsSound;
    match step {
      case Claim(key) => ClaimKeepsSlot(s, key);
      case TrySubmit(at) => TrySubmitKeepsSlot(s, at);
      case GiveBack(at) => SubmissionsSoundWithout(s.submissions, at);
      case Offer(key, source, password) => TryCommandSends(s, ProvidePassword(key, source, password));
      case SendCancel(key) => TryCommandSends(s, Cancel(key));
      case CloseSender => TryCommandSends(s, Shutdown);
      case _ =>
    }
  }

  lemma TryCommandSends(s: State, c: ToolCommand)
    ensures var t := TryCommand(s, c);
            t == s.(slot := t.slot) && (t.slot == s.slot || t.slot == Some(c))
  {}

  lemma SubmissionsSoundWithout(submissions: seq<Submission>, at: nat)
    requires SubmissionsSound(submissions) && at < |submissions|
    ensures SubmissionsSound(Without(submissions, at))
  {}

  lemma ClaimKeepsSlot(s: State, key: Key)
    requires SlotSound(s)
    ensures SlotSound(ClaimStep(s, key))
  {
    hide CommandSound;
  }

  lemma TrySubmitKeepsSlot(s: State, at: nat)
    requires at < |s.submissions| && SlotSound(s)
    ensures SlotSound(TrySubmitStep(s, at))
  {
    SubmissionsSoundWithout(s.submissions, at);
    hide Without;
  }

  lemma WorkerStepLeaves(s: State, step: Step, t: State)
    requires Next(s, step, t) && !CallerStep(step) && !step.DoReport? && (step.DoReceive? ==> s.slot.None?)
    ensures LeavesJobs(s, t) && t.submissions == s.submissions && t.offers == s.offers
    ensures (t.slot == s.slot || t.slot == None)
  {
    if step.DoSend? {
      SendLeaves(s, step.giveUp);
      hide SendStep;
    }
  }

  lemma SendLeaves(s: State, giveUp: bool)
    requires s.pc.Send?
    ensures var t := SendStep(s, giveUp);
            LeavesJobs(s, t) && t.submissions == s.submissions && t.offers == s.offers && t.slot == s.slot
  {}

  lemma OtherStepLeaves(s: State, step: Step, t: State)
    requires Next(s, step, t) && !step.DoReport? && (step.DoReceive? ==> s.slot.None?) && SlotSound(s)
    ensures LeavesJobs(s, t) && SlotSound(t)
  {
    if CallerStep(step) {
      CallerStepLeaves(s, step, t);
      CallerStepKeepsSlot(s, step, t);
    } else {
      WorkerStepLeaves(s, step, t);
    }
    hide Next, LeavesJobs;
  }

  lemma LeavesSound(s: State, t: State)
    requires PasswordsSound(s) && LeavesJobs(s, t) && SlotSound(t)
    ensures PasswordsSound(t)
  {
    if t.pending.Some? { JobSoundLater(s.offers, t.offers, s.made, t.made, t.pending.value.job); }
    if AtWork(t.pc) { JobSoundLater(s.offers, t.offers, s.made, t.made, t.pc.job); }
    hide JobSound, Asked, SlotSound;
  }

  lemma PasswordsKept(s: State, step: Step, t: State)
    requires Next(s, step, t) && PasswordsSound(s)
    ensures PasswordsSound(t)
  {
    if step.DoReceive? && s.slot.Some? {
      HandleSound(s, s.slot.value);
      hide Handle, PasswordsSound;
    } else if step.DoReport? {
      AfterRunSound(s, s.pc.job, s.pc.result);
      hide AfterRun, PasswordsSound;
    } else {
      OtherStepLeaves(s, step, t);
      hide Next, LeavesJobs, SlotSound, PcSound, PendingSound;
      LeavesSound(s, t);
    }
  }

  lemma {:induction false} PasswordsSoundAlways(run: seq<State>, steps: seq<Step>, i: nat)
    requires IsRun(run, steps) && i < |run|
    ensures PasswordsSound(run[i])
  {
    if i > 0 {
      hide Next, PasswordsSound;
      RunGoesOn(run, steps, i - 1);
      PasswordsSoundAlways(run, steps, i - 1);
      PasswordsKept(run[i - 1], steps[i - 1], run[i]);
    }
  }

  /** Whenever a job runs, each of its passwords was offered for this very job and for a file it had asked for. */
  lemma PasswordsAreTheJobsOwn(run: seq<State>, steps: seq<Step>, i: nat, source: Path, password: Password)
    requires IsRun(run, steps) && i < |run| && AtWork(run[i].pc)
    requires PasswordFor(run[i].pc.job.passwords, source) == Some(password)
    ensures (run[i].pc.job.key, source, password) in run[i].offers && Asked(run[i].made, run[i].pc.job.ticket, source)
  {
    PasswordsSoundAlways(run, steps, i);
    assert (source, password) in run[i].pc.job.passwords;
    hide IsRun, PasswordFor, Asked;
  }

  /** A password found wrong is gone before the next one is asked for. */
  lemma WrongPasswordsAreForgotten(run: seq<State>, steps: seq<Step>, i: nat)
    requires IsRun(run, steps) && i < |run| && run[i].pending.Some? && run[i].pending.value.wrong
    ensures PasswordFor(run[i].pending.value.job.passwords, run[i].pending.value.source) == None
  {
    PasswordsSoundAlways(run, steps, i);
    var p := run[i].pending.value;
    assert forall j :: 0 <= j < |p.job.passwords| ==> p.job.passwords[j] in p.job.passwords;
    hide IsRun, Asked, JobSound;
  }

  // Cancellation

  predicate HasCompleted(made: seq<ToolEvent>, ticket: nat) {
    exists i :: 0 <= i < |made| && made[i].ticket == ticket && made[i].kind.Completed?
  }

  lemma HandleCompletesNothing(s: State, c: ToolCommand, ticket: nat)
    requires s.pc.Receive? && s.slot == Some(c)
    ensures var t := Handle(s.(slot := None), c);
            (HasCompleted(t.made, ticket) <==> HasCompleted(s.made, ticket)) && !t.pc.Report?
  {
    HandleEffect(s, c);
    var t := Handle(s.(slot := None), c);
    hide Handle;
    if t.made != s.made {
      var event := if t.pc.Send? then t.pc.event else EventOf(s.pending.value.job, Cancelled);
      CompletedGrows(s.made, event, ticket);
    }
    hide HasCompleted;
  }

  lemma AfterRunCompletes(s: State, job: Job, result: Result, ticket: nat)
    ensures var t := AfterRun(s, job, result);
            && (HasCompleted(t.made, ticket) <==>
                  HasCompleted(s.made, ticket) || (result.RCompleted? && ticket == job.ticket))
            && !t.pc.Report?
  {
    hide Cleared;
    var t := AfterRun(s, job, result);
    var last := t.made[|t.made| - 1];
    assert t.made == s.made + [last] && (last.kind.Completed? <==> result.RCompleted?) && last.ticket == job.ticket;
    hide AfterRun;
    CompletedGrows(s.made, last, ticket);
  }

  lemma CompletedGrows(made: seq<ToolEvent>, event: ToolEvent, ticket: nat)
    ensures HasCompleted(made + [event], ticket) <==>
              HasCompleted(made, ticket) || (event.ticket == ticket && event.kind.Completed?)
  {
    var later := made + [event];
    assert later[|made|] == event;
    if HasCompleted(made, ticket) {
      var i :| 0 <= i < |made| && made[i].ticket == ticket && made[i].kind.Completed?;
      assert later[i] == made[i];
    }
  }

  /** The worker is about to report success of the job. */
  predicate WillComplete(s: State, ticket: nat) {
    s.pc.Report? && s.pc.result.RCompleted? && s.pc.job.ticket == ticket
  }

  /** The step is the last look at the token of the job, and finds it not cancelled. */
  predicate LooksClear(s: State, step: Step, ticket: nat) {
    step.DoLastLook? && s.pc.LastLook? && s.pc.job.ticket == ticket && !TokenCancelled(s, s.pc.job)
  }

  lemma CallerStepCompletesNothing(s: State, step: Step, t: State)
    requires Next(s, step, t) && CallerStep(step)
    ensures t.made == s.made && t.pc == s.pc && s.cancelled <= t.cancelled
  {
    hide TryCommand, TrySubmitStep, ClaimStep, Handle, AfterRun, SendStep, Without;
    match step {
      case Claim(key) => ClaimFrame(s, key);
      case TrySubmit(at) => TrySubmitFrame(s, at);
      case Offer(key, source, password) => TryCommandSends(s, ProvidePassword(key, source, password));
      case SendCancel(key) => TryCommandSends(s, Cancel(key));
      case CloseSender => TryCommandSends(s, Shutdown);
      case _ =>
    }
  }

  lemma ClaimFrame(s: State, key: Key)
    ensures var t := ClaimStep(s, key);
            t.made == s.made && t.pc == s.pc && t.cancelled == s.cancelled
  {}

  lemma TrySubmitFrame(s: State, at: nat)
    requires at < |s.submissions|
    ensures var t := TrySubmitStep(s, at);
            t.made == s.made && t.pc == s.pc && t.cancelled == s.cancelled
  {
    hide Without;
  }

  lemma SendCompletesNothing(s: State, giveUp: bool)
    requires s.pc.Send?
    ensures var t := SendStep(s, giveUp);
            t.made == s.made && !AtWork(t.pc) && t.cancelled == s.cancelled
  {}

  lemma LookStepCompletes(s: State, step: Step, t: State, ticket: nat)
    requires Next(s, step, t) && (step.DoFirstLook? || step.DoOperate? || step.DoLastLook?)
    ensures t.made == s.made && t.cancelled == s.cancelled
    ensures WillComplete(t, ticket) <==> LooksClear(s, step, ticket)
  {}

  lemma StepCompletes(s: State, step: Step, t: State, ticket: nat)
    requires Next(s, step, t)
    ensures HasCompleted(t.made, ticket) <==>
              HasCompleted(s.made, ticket) || (step.DoReport? && WillComplete(s, ticket))
    ensures WillComplete(t, ticket) <==> (WillComplete(s, ticket) && !step.DoReport?) || LooksClear(s, step, ticket)
  {
    if CallerStep(step) {
      CallerStepCompletesNothing(s, step, t);
      hide Next, HasCompleted;
    } else if step.DoFirstLook? || step.DoOperate? || step.DoLastLook? {
      LookStepCompletes(s, step, t, ticket);
      hide Next, HasCompleted;
    } else if step.DoReceive? && s.slot.Some? {
      HandleCompletesNothing(s, s.slot.value, ticket);
      hide Handle, HasCompleted;
    } else if step.DoReport? {
      AfterRunCompletes(s, s.pc.job, s.pc.result, ticket);
      hide AfterRun, HasCompleted;
    } else {
      if step.DoSend? { SendCompletesNothing(s, step.giveUp); }
      hide HasCompleted, Handle, AfterRun, SendStep;
    }
  }

  /** One of the first `i` steps was the last look at the token of the job and found it not cancelled. */
  ghost predicate LookedClear(run: seq<State>, steps: seq<Step>, i: nat, ticket: nat) {
    exists k: nat :: k < i && k < |steps| && k < |run| && LooksClear(run[k], steps[k], ticket)
  }

  lemma LookedClearLater(run: seq<State>, steps: seq<Step>, i: nat, j: nat, ticket: nat)
    requires LookedClear(run, steps, i, ticket) && i <= j
    ensures LookedClear(run, steps, j, ticket)
  {
    hide LooksClear;
  }

  lemma LookedClearNow(run: seq<State>, steps: seq<Step>, i: nat, ticket: nat)
    requires i < |steps| && i < |run| && LooksClear(run[i], steps[i], ticket)
    ensures LookedClear(run, steps, i + 1, ticket)
  {
    hide LooksClear;
  }

  /** A job reports completion only if its token was not cancelled at the last look. */
  lemma {:induction false} CompletedLookedClear(run: seq<State>, steps: seq<Step>, i: nat, ticket: nat)
    requires IsRun(run, steps) && i < |run| && (HasCompleted(run[i].made, ticket) || WillComplete(run[i], ticket))
    ensures LookedClear(run, steps, i, ticket)
  {
    hide Next, HasCompleted, WillComplete, LooksClear, LookedClear;
    if i == 0 {
      NothingCompleted(ticket);
    } else {
      RunGoesOn(run, steps, i - 1);
      var (s, t) := (run[i - 1], run[i]);
      StepCompletes(s, steps[i - 1], t, ticket);
      hide IsRun;
      if LooksClear(s, steps[i - 1], ticket) {
        LookedClearNow(run, steps, i - 1, ticket);
      } else {
        CompletedLookedClear(run, steps, i - 1, ticket);
        LookedClearLater(run, steps, i - 1, i, ticket);
      }
    }
  }

  lemma NothingCompleted(ticket: nat)
    ensures !HasCompleted(Initial().made, ticket) && !WillComplete(Initial(), ticket)
  {}

  lemma TokenStaysCancelled(s: State, step: Step, t: State, ticket: nat)
    requires Next(s, step, t) && ticket in s.cancelled
    ensures ticket in t.cancelled
  {
    if CallerStep(step) {
      CallerStepCompletesNothing(s, step, t);
      hide Next;
    } else if step.DoReceive? && s.slot.Some? {
      HandleKeepsTokens(s, s.slot.value);
      hide Handle;
    } else if step.DoReport? {
      AfterRunKeepsTokens(s, s.pc.job, s.pc.result);
      hide AfterRun;
    } else {
      if step.DoSend? { SendCompletesNothing(s, step.giveUp); }
      hide Handle, AfterRun, SendStep;
    }
  }

  lemma AfterRunKeepsTokens(s: State, job: Job, result: Result)
    ensures AfterRun(s, job, result).cancelled == s.cancelled
  {
    hide Cleared;
  }

  lemma HandleKeepsTokens(s: State, c: ToolCommand)
    requires s.pc.Receive? && s.slot == Some(c)
    ensures Handle(s.(slot := None), c).cancelled == s.cancelled
  {
    hide Replaced;
  }

  lemma {:induction false} CancelledStays(run: seq<State>, steps: seq<Step>, i: nat, j: nat, ticket: nat)
    requires IsRun(run, steps) && i <= j < |run| && ticket in run[i].cancelled
    ensures ticket in run[j].cancelled
  {
    hide Next;
    if i < j {
      RunGoesOn(run, steps, j - 1);
      CancelledStays(run, steps, i, j - 1, ticket);
      TokenStaysCancelled(run[j - 1], steps[j - 1], run[j], ticket);
    }
  }

  /** A job whose token is cancelled before its last look at it never completes. */
  lemma CancelledNeverCompletes(run: seq<State>, steps: seq<Step>, i: nat, j: nat, ticket: nat)
    requires IsRun(run, steps) && i <= j < |run|
    requires ticket in run[i].cancelled && !LookedClear(run, steps, i, ticket)
    ensures !HasCompleted(run[j].made, ticket)
  {
    hide Next, HasCompleted, LooksClear;
    if HasCompleted(run[j].made, ticket) {
      CompletedLookedClear(run, steps, j, ticket);
      var k: nat :| k < j && k < |steps| && k < |run| && LooksClear(run[k], steps[k], ticket);
      CancelledStays(run, steps, i, k, ticket);
      ClearIsNotCancelled(run[k], steps[k], ticket);
    }
  }

  lemma ClearIsNotCancelled(s: State, step: Step, ticket: nat)
    requires LooksClear(s, step, ticket)
    ensures ticket !in s.cancelled
  {}

  // Exactly when a successful job completes

  lemma {:induction false} CompletedIsEnded(made: seq<ToolEvent>, ticket: nat)
    requires HasCompleted(made, ticket)
    ensures Ended(made, ticket) > 0
  {
    var i :| 0 <= i < |made| && made[i].ticket == ticket && made[i].kind.Completed?;
    if i < |made| - 1 {
      assert made[..|made| - 1][i] == made[i];
      CompletedIsEnded(made[..|made| - 1], ticket);
    }
  }

  lemma OpenIsNotCompleted(run: seq<State>, steps: seq<Step>, i: nat)
    requires IsRun(run, steps) && i < |run| && AtWork(run[i].pc)
    ensures !HasCompleted(run[i].made, run[i].pc.job.ticket)
  {
    var ticket := run[i].pc.job.ticket;
    AtMostOneTerminalEvent(run, steps, i, ticket);
    assert Running(run[i].pc, ticket) == 1;
    hide IsRun, HasCompleted, Ended, Queued, Waiting;
    if HasCompleted(run[i].made, ticket) { CompletedIsEnded(run[i].made, ticket); }
  }

  lemma MadeGrows(s: State, step: Step, t: State)
    requires Next(s, step, t)
    ensures s.made <= t.made && |t.made| <= |s.made| + 1
  {
    if CallerStep(step) {
      CallerStepCompletesNothing(s, step, t);
      hide Next;
    } else if step.DoReceive? && s.slot.Some? {
      HandleEffect(s, s.slot.value);
      hide Handle;
    } else if step.DoReport? {
      AfterRunEffect(s, s.pc.job, s.pc.result);
      hide AfterRun;
    } else {
      if step.DoSend? { SendCompletesNothing(s, step.giveUp); }
      hide Handle, AfterRun, SendStep;
    }
  }

  lemma EndedStays(s: State, step: Step, t: State, ticket: nat)
    requires Next(s, step, t)
    ensures Ended(s.made, ticket) <= Ended(t.made, ticket)
  {
    hide *;
    MadeGrows(s, step, t);
    if t.made != s.made {
      var last := t.made[|s.made|];
      assert t.made == s.made + [last];
      EndedGrows(s.made, last, ticket);
    }
  }

  /** A worker that has a terminal event to make makes it next. */
  lemma ReportIsNext(s: State, step: Step, t: State)
    requires Next(s, step, t) && s.pc.Report? && (s.pc.result.RCompleted? || s.pc.result.RCancelled?)
    ensures (t.pc == s.pc && !step.DoReport?) || (step.DoReport? && Ended(t.made, s.pc.job.ticket) > 0)
  {
    if step.DoReport? {
      AfterRunEffect(s, s.pc.job, s.pc.result);
      EndedGrows(s.made, t.pc.event, s.pc.job.ticket);
      hide AfterRun, Ended;
    } else if CallerStep(step) {
      CallerStepCompletesNothing(s, step, t);
      hide Next;
    } else {
      hide CallerStep;
    }
  }

  /** A job that has ended is not at work. */
  lemma EndedIsNotAtWork(run: seq<State>, steps: seq<Step>, i: nat, ticket: nat)
    requires IsRun(run, steps) && i < |run| && Ended(run[i].made, ticket) > 0
    ensures AtWork(run[i].pc) ==> run[i].pc.job.ticket != ticket
  {
    AtMostOneTerminalEvent(run, steps, i, ticket);
    hide IsRun, Ended, Queued, Waiting;
  }

  /** The worker still has its event to make, or the job has ended and has completed as `completes` says. */
  ghost predicate Decided(s: State, reported: Pc, ticket: nat, completes: bool) {
    if s.pc == reported then !HasCompleted(s.made, ticket)
    else Ended(s.made, ticket) > 0 && (HasCompleted(s.made, ticket) <==> completes)
  }

  lemma StaysDecided(s: State, step: Step, t: State, reported: Pc, ticket: nat, completes: bool)
    requires Next(s, step, t) && Decided(s, reported, ticket, completes)
    requires reported.Report? && reported.job.ticket == ticket
    requires reported.result == if completes then RCompleted else RCancelled
    requires Ended(s.made, ticket) > 0 ==> AtWork(s.pc) ==> s.pc.job.ticket != ticket
    requires Ended(t.made, ticket) > 0 ==> AtWork(t.pc) ==> t.pc.job.ticket != ticket
    ensures Decided(t, reported, ticket, completes)
  {
    hide Next, HasCompleted, Ended;
    StepCompletes(s, step, t, ticket);
    if s.pc == reported {
      ReportIsNext(s, step, t);
    } else {
      EndedStays(s, step, t, ticket);
    }
  }

  lemma LooksAndReports(s: State, t: State)
    requires Next(s, DoLastLook, t)
    ensures s.pc.LastLook? && t.made == s.made
    ensures t.pc == Report(s.pc.job, if TokenCancelled(s, s.pc.job) then RCancelled else RCompleted)
  {}

  lemma StaysDecidedInRun(run: seq<State>, steps: seq<Step>, j: nat, reported: Pc, ticket: nat, completes: bool)
    requires IsRun(run, steps) && 0 < j < |run| && Decided(run[j - 1], reported, ticket, completes)
    requires reported.Report? && reported.job.ticket == ticket
    requires reported.result == if completes then RCompleted else RCancelled
    ensures Decided(run[j], reported, ticket, completes)
  {
    hide *;
    RunLength(run, steps);
    RunGoesOn(run, steps, j - 1);
    if Ended(run[j].made, ticket) > 0 { EndedIsNotAtWork(run, steps, j, ticket); }
    if Ended(run[j - 1].made, ticket) > 0 { EndedIsNotAtWork(run, steps, j - 1, ticket); }
    StaysDecided(run[j - 1], steps[j - 1], run[j], reported, ticket, completes);
  }

  lemma DecidedAtFirst(s: State, reported: Pc, ticket: nat, completes: bool)
    requires s.pc == reported && !HasCompleted(s.made, ticket)
    ensures Decided(s, reported, ticket, completes)
  {
    hide HasCompleted, Ended;
  }

  lemma {:induction false} DecidedAlways(run: seq<State>, steps: seq<Step>, k: nat, j: nat)
    requires IsRun(run, steps) && k < j < |run| && steps[k].DoLastLook?
    ensures run[k].pc.LastLook?
    ensures Decided(run[j], run[k + 1].pc, run[k].pc.job.ticket, !TokenCancelled(run[k], run[k].pc.job))
  {
    RunGoesOn(run, steps, k);
    LooksAndReports(run[k], run[k + 1]);
    var job := run[k].pc.job;
    if j == k + 1 {
      OpenIsNotCompleted(run, steps, k + 1);
      hide *;
      DecidedAtFirst(run[j], run[j].pc, job.ticket, !TokenCancelled(run[k], job));
    } else {
      hide *;
      DecidedAlways(run, steps, k, j - 1);
      StaysDecidedInRun(run, steps, j, run[k + 1].pc, job.ticket, !TokenCancelled(run[k], job));
    }
  }

  /**
   * The last look decides, whatever is cancelled after it: once the worker has made its event, the job
   * has completed exactly when its token was not cancelled at that look.
   */
  lemma LastLookDecides(run: seq<State>, steps: seq<Step>, k: nat, j: nat)
    requires IsRun(run, steps) && k < j < |run| && steps[k].DoLastLook?
    ensures run[k].pc.LastLook?
    ensures run[j].pc != run[k + 1].pc ==> (HasCompleted(run[j].made, run[k].pc.job.ticket)
              <==> run[k].pc.job.ticket !in run[k].cancelled)
    ensures run[j].pc == run[k + 1].pc ==> !HasCompleted(run[j].made, run[k].pc.job.ticket)
  {
    DecidedAlways(run, steps, k, j);
    hide IsRun, HasCompleted, Ended, AtWork;
  }

  /**
   * A cancel can come too late: a token cancelled between the last look and the event does not keep the job from
   * completing.
   */
  lemma LateCancelStillCompletes(run: seq<State>, steps: seq<Step>, job: Job)
    returns (longer: seq<State>, more: seq<Step>)
    requires IsRun(run, steps) && run[|steps|].pc == LastLook(job) && !TokenCancelled(run[|steps|], job)
    ensures IsRun(longer, more) && run <= longer && more == steps + [DoLastLook, CancelToken(job.ticket), DoReport]
    ensures var n := |steps|;
            && job.ticket in longer[n + 2].cancelled && !HasCompleted(longer[n + 2].made, job.ticket)
            && HasCompleted(longer[n + 3].made, job.ticket)
  {
    var s := run[|steps|];
    var s1 := s.(pc := Report(job, RCompleted));
    var s2 := s1.(cancelled := s1.cancelled + {job.ticket});
    var s3 := AfterRun(s2, job, RCompleted);
    OpenIsNotCompleted(run, steps, |steps|);
    AfterRunCompletes(s2, job, RCompleted, job.ticket);
    hide AfterRun, HasCompleted;
    longer, more := run + [s1, s2, s3], steps + [DoLastLook, CancelToken(job.ticket), DoReport];
    assert Next(s, DoLastLook, s1) && Next(s1, CancelToken(job.ticket), s2) && Next(s2, DoReport, s3);
    hide Next;
    forall i | 0 <= i < |more| ensures Next(longer[i], more[i], longer[i + 1]) {
      if i < |steps| { assert longer[i] == run[i] && longer[i + 1] == run[i + 1] && more[i] == steps[i]; }
    }
  }

  lemma FirstJobArrives(key: Key, job: Job, s1: State, s2: State, s3: State, s4: State)
    requires job == Job(0, key, [])
    requires s1 == Initial().(active := true, submissions := [Submission(job, false)], nextTicket := 1)
    requires s2 == s1.(slot := Some(Start(job)), submissions := [], accepted := {0})
    requires s3 == s2.(pc := Receive) && s4 == s3.(slot := None, pc := SetToken(job))
    ensures Next(Initial(), Claim(key), s1) && Next(s1, TrySubmit(0), s2) && Next(s2, DoCheck, s3)
    ensures Next(s3, DoReceive, s4)
  {
    hide Handle, AfterRun, SendStep;
    assert s1 == ClaimStep(Initial(), key);
    assert s2 == TrySubmitStep(s1, 0);
    HandleStart(s3.(slot := None), job);
    hide ClaimStep, TrySubmitStep;
  }

  lemma HandleStart(s: State, job: Job)
    ensures Handle(s, Start(job)) == s.(pc := SetToken(job))
  {}

  lemma FirstJobRuns(s4: State, job: Job, s5: State, s6: State, s7: State)
    requires s4.pc == SetToken(job) && s4.cancelled == {}
    requires s5 == s4.(current := Some(job.ticket), pc := Execute(job)) && s6 == s5.(pc := Operate(job))
    requires s7 == s5.(pc := LastLook(job))
    ensures Next(s4, DoSetToken, s5) && Next(s5, DoFirstLook, s6) && Next(s6, DoOperate(Succeeded), s7)
  {
    hide ClaimStep, TrySubmitStep, Handle, AfterRun, SendStep;
  }

  /** A run that comes to the last look of its first job. */
  lemma FirstJobSucceeds(key: Key) returns (run: seq<State>, steps: seq<Step>)
    ensures IsRun(run, steps) && run[|steps|].pc == LastLook(Job(0, key, [])) && run[|steps|].cancelled == {}
  {
    hide Next;
    var job := Job(0, key, []);
    var s1 := Initial().(active := true, submissions := [Submission(job, false)], nextTicket := 1);
    var s2 := s1.(slot := Some(Start(job)), submissions := [], accepted := {0});
    var s3 := s2.(pc := Receive);
    var s4 := s3.(slot := None, pc := SetToken(job));
    var s5 := s4.(current := Some(0), pc := Execute(job));
    var (s6, s7) := (s5.(pc := Operate(job)), s5.(pc := LastLook(job)));
    FirstJobArrives(key, job, s1, s2, s3, s4);
    FirstJobRuns(s4, job, s5, s6, s7);
    run := [Initial(), s1, s2, s3, s4, s5, s6, s7];
    steps := [Claim(key), TrySubmit(0), DoCheck, DoReceive, DoSetToken, DoFirstLook, DoOperate(Succeeded)];
  }

  /** Before a shutdown the token that a shutdown would cancel is that of the job that runs or waits. */
  lemma ShutdownReachesTheJob(run: seq<State>, steps: seq<Step>, i: nat)
    requires IsRun(run, steps) && i < |run| && !run[i].shutdown
    ensures AtWork(run[i].pc) && !run[i].pc.SetToken? ==> run[i].current == Some(run[i].pc.job.ticket)
    ensures run[i].pending.Some? ==> run[i].current == Some(run[i].pending.value.job.ticket)
  {
    ServingAlways(run, steps, i);
    hide IsRun, OneAtATime;
  }
}
