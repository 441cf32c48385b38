// The calls of the scheduler in their own form: methods that update the pending requests, the
// generation and the channels in place, proved to do what their steps do when none falls between.

module Scheduler {
  import opened RenderTypes
  import opened RenderPipeline

  /** What a poll for an event brings. */
  datatype Poll = Received(event: Event) | Nothing | WorkerStopped

  class RenderScheduler {
    var pending: set<RequestKey>
    var generation: nat
    var control: seq<Command>
    var visible: seq<Command>
    var low: seq<Command>
    var critical: seq<Event>
    var events: seq<Event>
    /** The worker has stopped, and with it the other ends of all channels are gone. */
    var workerGone: bool

    constructor ()
      ensures Shows(Initial())
    {
      pending, generation := {}, 1;
      control, visible, low, critical, events := [], [], [], [], [];
      workerGone := false;
    }

    /** The fields are those of a state in which nobody holds the lock or polls. */
    ghost predicate Shows(s: State)
      reads this
    {
      && s.p.lock == Free && s.p.pending == pending && s.p.generation == generation
      && s.q.control == control && s.q.visible == visible && s.q.low == low
      && s.e.critical == critical && s.e.events == events && s.e.ui == UiIdle
      && s.w.pc.Stopped? == workerGone
    }

    /** `send_command`: false for a duplicate, a full queue or a stopped worker. */
    method SendCommand(ghost s: State, c: Command) returns (sent: bool)
      requires Shows(s)
      modifies this
      ensures Shows(AfterSend(s, c))
      ensures sent <==> !(c.RenderPage? && KeyOf(c.job) in old(pending)) && !workerGone && HasRoom(s.q, c)
      ensures sent && c.RenderPage? ==> KeyOf(c.job) in pending
    {
      if c.RenderPage? && KeyOf(c.job) in pending {
        return false;
      }
      if workerGone {
        return false;
      }
      if IsControl(c) {
        if |control| >= CONTROL_CAPACITY {
          return false;
        }
        control := control + [c];
      } else if IsVisible(c) {
        if |visible| >= VISIBLE_CAPACITY {
          return false;
        }
        visible := visible + [c];
      } else {
        if |low| >= LOW_CAPACITY {
          return false;
        }
        low := low + [c];
      }
      if c.RenderPage? {
        pending := pending + {KeyOf(c.job)};
      }
      return true;
    }

    /** `bump_generation`: only requests of the new generation stay pending. */
    method BumpGeneration(ghost s: State) returns (g: nat)
      requires Shows(s)
      modifies this
      ensures Shows(AfterBump(s)) && g == generation == old(generation) + 1
      ensures forall k :: k in pending <==> k in old(pending) && k.generation == g
    {
      generation := generation + 1;
      pending := set k | k in pending && k.generation == generation;
      return generation;
    }

    /** `try_recv_event`: critical events first. */
    method TryRecvEvent(ghost s: State) returns (r: Poll)
      requires Shows(s)
      modifies this
      ensures Shows(AfterPoll(s))
      ensures r == if old(critical) != [] then Received(old(critical[0]))
                   else if old(events) != [] then Received(old(events[0]))
                   else if workerGone then WorkerStopped else Nothing
      ensures r == WorkerStopped ==> AfterPoll(s).e.reported
    {
      if critical != [] {
        r := Received(critical[0]);
        critical := critical[1..];
        return;
      }
      if events != [] {
        r := Received(events[0]);
        events := events[1..];
        return;
      }
      return if workerGone then WorkerStopped else Nothing;
    }
  }

  predicate HasRoom(q: Queues, c: Command) {
    if IsControl(c) then |q.control| < CONTROL_CAPACITY
    else if IsVisible(c) then |q.visible| < VISIBLE_CAPACITY
    else |q.low| < LOW_CAPACITY
  }

  // The calls as uninterrupted steps

  function Locked(s: State, lock: Lock): State {
    s.(p := s.p.(lock := lock))
  }

  function AfterSend(s: State, c: Command): State {
    if !c.RenderPage? then SendOtherStep(s, c)
    else if KeyOf(c.job) in s.p.pending then s
    else
      var t := TrySend(s, c.job);
      if t.p.lock == Sending(c.job, SendStage.Sent)
      then t.(p := s.p.(pending := s.p.pending + {KeyOf(c.job)}))
      else s
  }

  function AfterBump(s: State): State {
    var g := s.p.generation + 1;
    s.(p := s.p.(generation := g, pending := set k | k in s.p.pending && k.generation == g))
  }

  function AfterPoll(s: State): State {
    var t := UiFirstStep(s);
    if t.e.ui.UiSecond? then UiThenStep(t) else t
  }

  /** A chain of steps. */
  ghost predicate Chain(cfg: Config, states: seq<State>, steps: seq<Step>) {
    && |states| == |steps| + 1
    && forall i :: 0 <= i < |steps| ==> Next(cfg, states[i], steps[i], states[i + 1])
  }

  /**
   * Sending a render request is acquiring the lock, looking for a duplicate, trying the queue, registering and
   * letting go.
   */
  lemma SendIsASequenceOfSteps(cfg: Config, s: State, job: RenderJob) returns (states: seq<State>, steps: seq<Step>)
    requires s.p.lock == Free && !s.l.schedulerDropped
    ensures Chain(cfg, states, steps) && states[0] == s && states[|steps|] == AfterSend(s, RenderPage(job))
    ensures forall step :: step in steps ==> step in {SendAcquire(job), SendCheck, SendTry, SendInsert, SendRelease}
  {
    var a := Locked(s, Sending(job, Acquired));
    var settled := Locked(s, Sending(job, Settled));
    assert Locked(settled, Free) == s;
    if KeyOf(job) in s.p.pending {
      states, steps := [s, a, settled, s], [SendAcquire(job), SendCheck, SendRelease];
    } else {
      var b := Locked(s, Sending(job, Checked));
      var t := TrySend(b, job);
      TrySendFrame(s, b, job);
      if t.p.lock == Sending(job, SendStage.Sent) {
        var u := t.(p := t.p.(pending := t.p.pending + {KeyOf(job)}, lock := Sending(job, Settled)));
        states := [s, a, b, t, u, AfterSend(s, RenderPage(job))];
        steps := [SendAcquire(job), SendCheck, SendTry, SendInsert, SendRelease];
      } else {
        states, steps := [s, a, b, settled, s], [SendAcquire(job), SendCheck, SendTry, SendRelease];
      }
    }
  }

  lemma TrySendFrame(s: State, b: State, job: RenderJob)
    requires b == Locked(s, Sending(job, Checked))
    ensures TrySend(b, job) == TrySend(s, job)
    ensures TrySend(s, job).p.lock == Sending(job, SendStage.Sent)
              || TrySend(s, job) == Locked(s, Sending(job, Settled))
    ensures TrySend(s, job).p == s.p.(lock := TrySend(s, job).p.lock)
  {}

  /** A bump is acquiring the lock, counting, retaining and letting go. */
  lemma BumpIsASequenceOfSteps(cfg: Config, s: State) returns (states: seq<State>)
    requires s.p.lock == Free && !s.l.schedulerDropped
    ensures Chain(cfg, states, [BumpAcquire, BumpAdd, BumpRetain, BumpRelease])
    ensures states[0] == s && states[4] == AfterBump(s)
  {
    var t := AfterBump(s);
    states := [s, Locked(s, Bumping(Entered)), Locked(s.(p := s.p.(generation := s.p.generation + 1)), Bumping(Added)),
      Locked(t, Bumping(Retained)), t];
  }

  // Runs that go on

  /** A run goes on with a chain that starts where it ends. */
  lemma RunExtends(cfg: Config, run: seq<State>, steps: seq<Step>, states: seq<State>, more: seq<Step>)
    requires IsRun(cfg, run, steps) && Chain(cfg, states, more) && states[0] == run[|steps|]
    ensures IsRun(cfg, run + states[1..], steps + more)
    ensures (run + states[1..])[|steps + more|] == states[|more|]
  {
    var (longer, all) := (run + states[1..], steps + more);
    hide Next, Initial;
    forall i | 0 <= i < |all| ensures Next(cfg, longer[i], all[i], longer[i + 1]) {
      if i >= |steps| {
        assert longer[i] == states[i - |steps|] && longer[i + 1] == states[i - |steps| + 1];
        assert all[i] == more[i - |steps|];
      }
    }
  }

  /**
   * Whether a run of `n` bumps can come to this state from `s`: nothing but the counter and the pending set
   * changed.
   */
  predicate IsBumped(s: State, n: nat, t: State) {
    && t == s.(p := s.p.(generation := s.p.generation + n, pending := t.p.pending))
    && (n > 0 ==> forall k :: k in t.p.pending ==> k.generation == s.p.generation + 1)
  }

  lemma {:induction false} BumpsRun(cfg: Config, run: seq<State>, steps: seq<Step>, n: nat)
    returns (longer: seq<State>, more: seq<Step>)
    requires IsRun(cfg, run, steps)
    requires run[|steps|].p.lock == Free && !run[|steps|].l.schedulerDropped
    ensures IsRun(cfg, longer, more) && run <= longer && IsBumped(run[|steps|], n, longer[|more|])
  {
    if n == 0 {
      longer, more := run, steps;
    } else {
      longer, more := BumpsRun(cfg, run, steps, n - 1);
      var s := longer[|more|];
      var states := BumpIsASequenceOfSteps(cfg, s);
      hide IsRun, Chain;
      RunExtends(cfg, longer, more, states, [BumpAcquire, BumpAdd, BumpRetain, BumpRelease]);
      longer, more := longer + states[1..], more + [BumpAcquire, BumpAdd, BumpRetain, BumpRelease];
    }
  }
}
