// The set of pending render requests over every run of the pipeline: no key is leaked, and a
// request of the current generation is pending exactly while its one job is live.

module PendingRequests {
  import opened Wrappers
  import opened RenderTypes
  import opened RenderPipeline
  import Bitmap
  import Cache
  import opened Scheduler

  function KeysOf(c: Command): multiset<RequestKey> {
    if c.RenderPage? then multiset{KeyOf(c.job)} else multiset{}
  }

  function QueuedKeys(cs: seq<Command>): multiset<RequestKey> {
    if cs == [] then multiset{} else QueuedKeys(cs[..|cs| - 1]) + KeysOf(cs[|cs| - 1])
  }

  /** The request the worker has received and not yet removed from the pending set. */
  function InFlight(pc: Pc): multiset<RequestKey> {
    match pc
    case Receive(_, _) => multiset{}
    case Dispatch(command, _) => KeysOf(command)
    case LoadInvert(job) => multiset{KeyOf(job)}
    case LookUp(job, _) => multiset{KeyOf(job)}
    case Rendering(job, _, _) => multiset{KeyOf(job)}
    case AfterRender(job, _, _, _) => multiset{KeyOf(job)}
    case Emit(_, _, _, forJob) => if forJob.Some? then multiset{KeyOf(forJob.value)} else multiset{}
    case FinishWait(job, _) => multiset{KeyOf(job)}
    case FinishLocked(job, _) => multiset{KeyOf(job)}
    case Stopped(_) => multiset{}
  }

  /** The keys of all jobs that are queued or in flight, with multiplicity. */
  function Live(q: Queues, pc: Pc): multiset<RequestKey> {
    QueuedKeys(q.visible) + QueuedKeys(q.low) + InFlight(pc)
  }

  // How steps change the live jobs

  lemma QueuedKeysPush(cs: seq<Command>, c: Command)
    ensures QueuedKeys(cs + [c]) == QueuedKeys(cs) + KeysOf(c)
  {
    assert (cs + [c])[..|cs|] == cs;
  }

  lemma {:induction false} QueuedKeysTake(cs: seq<Command>)
    requires cs != []
    ensures QueuedKeys(cs) == KeysOf(cs[0]) + QueuedKeys(cs[1..])
  {
    if |cs| > 1 {
      QueuedKeysTake(cs[..|cs| - 1]);
      assert cs[..|cs| - 1][1..] == cs[1..][..|cs[1..]| - 1];
    } else {
      assert cs[..0] == [] && cs[1..] == [];
    }
  }

  predicate ControlOnly(q: Queues) {
    forall c :: c in q.control ==> IsControl(c)
  }

  predicate SameQueues(s: State, t: State) {
    t.q.visible == s.q.visible && t.q.low == s.q.low && t.q.control == s.q.control
  }

  function KeysFor(forJob: Option<RenderJob>): multiset<RequestKey> {
    if forJob.Some? then multiset{KeyOf(forJob.value)} else multiset{}
  }

  // The worker steps

  /** What every step of the worker other than the last of a job leaves alone. */
  predicate WorkerKeeps(s: State, t: State) {
    && SameQueues(s, t) && InFlight(t.w.pc) == InFlight(s.w.pc)
    && t.p == s.p && !t.w.pc.FinishLocked?
  }

  lemma EmitCarries(pc: Pc)
    requires pc.Emit?
    ensures InFlight(pc) == KeysFor(pc.forJob)
  {}

  /** Once `s1` differs from `s` in events and worker only, so does the state after the delivery. */
  lemma AfterEmitKeeps(s: State, s1: State, forJob: Option<RenderJob>, ok: bool)
    requires s1.q == s.q && s1.p == s.p && InFlight(s.w.pc) == KeysFor(forJob)
    ensures WorkerKeeps(s, AfterEmit(s1, forJob, ok))
  {
    match forJob {
      case Some(job) => assert InFlight(FinishWait(job, ok)) == multiset{KeyOf(job)};
      case None =>
        var q := WaitAtCall(s1.q);
        assert InFlight(NewCall(q)) == multiset{} && InFlight(Stopped(HandlerFailed)) == multiset{};
        hide InFlight;
    }
  }

  lemma ProduceKeeps(s: State, s1: State, body: EventBody, route: Route, forJob: Option<RenderJob>)
    requires s1.q == s.q && s1.p == s.p && InFlight(s.w.pc) == KeysFor(forJob)
    ensures WorkerKeeps(s, Produce(s1, body, route, forJob))
  {
    var event := Event(|s1.e.produced|, body);
    EmitCarries(Emit(EmitCheck, route, event, forJob));
    hide InFlight;
  }

  lemma ProduceBitmapKeeps(s: State, s1: State, job: RenderJob, invert: bool, doc: Document, b: Bitmap.RawBitmap)
    requires s1.q == s.q && s1.p == s.p && InFlight(s.w.pc) == multiset{KeyOf(job)}
    ensures WorkerKeeps(s, ProduceBitmap(s1, job, invert, doc, b))
  {
    var s2 := s1.(w := s1.w.(emissions := s1.w.emissions + [Emission(job, invert, doc, b)]));
    ProduceKeeps(s, s2, PageRendered(job, b), if job.kind == Page then PageRoute else LossyRoute, Some(job));
    hide Produce, WorkerKeeps, InFlight;
  }

  lemma EmitCheckKeeps(s: State)
    requires s.w.pc.Emit?
    ensures WorkerKeeps(s, EmitCheckStep(s))
    ensures WorkerKeeps(s, AfterEmit(Abandon(Consume(s), s.w.pc.event), s.w.pc.forJob, false))
  {
    var pc := s.w.pc;
    EmitCarries(pc);
    EmitCarries(pc.(emitStage := EmitSend));
    AfterEmitKeeps(s, Abandon(Consume(s), pc.event), pc.forJob, false);
    hide InFlight, AfterEmit;
  }

  lemma EmitSendKeeps(s: State)
    requires s.w.pc.Emit?
    ensures WorkerKeeps(s, EmitSendStep(s))
  {
    var (event, forJob) := (s.w.pc.event, s.w.pc.forJob);
    EmitCarries(s.w.pc);
    EmitCarries(Emit(EmitCheck, CriticalRoute, event, forJob));
    AfterEmitKeeps(s, Abandon(s, event), forJob, false);
    AfterEmitKeeps(s, s.(e := PutCritical(s.e, event)), forJob, true);
    AfterEmitKeeps(s, s.(e := PutEvent(s.e, event)), forJob, true);
    AfterEmitKeeps(s, s.(e := s.e.(dropped := s.e.dropped + multiset{event})), forJob, true);
    var again := s.(w := s.w.(pc := Emit(EmitCheck, CriticalRoute, event, forJob)));
    assert WorkerKeeps(s, again) by { hide InFlight; }
    hide InFlight, AfterEmit, PutCritical, PutEvent, Abandon, WorkerKeeps;
  }

  lemma LookUpKeeps(s: State, job: RenderJob, invert: bool)
    requires InFlight(s.w.pc) == multiset{KeyOf(job)}
    ensures WorkerKeeps(s, LookUpStep(s, job, invert))
  {
    var key := CacheKeyOf(job, invert);
    var cache := s.w.cache;
    var at := Cache.Find(cache, key);
    var doc := if job.documentId in s.w.content then s.w.content[job.documentId] else 0;
    var larger := Cache.LargerCompatible(cache, job.documentId, job.pageIndex, job.rotation, invert, job.targetWidth,
      job.targetHeight);
    var d := FindDoc(s.w.docs, job.documentId);
    assert InFlight(FinishWait(job, true)) == multiset{KeyOf(job)};
    assert forall document :: InFlight(Rendering(job, invert, document)) == multiset{KeyOf(job)};
    if at < |cache| {
      ProduceBitmapKeeps(s, s.(w := s.w.(cache := Cache.Touched(cache, key))), job, invert, doc, cache[at].bitmap);
    } else if larger.Some? {
      ProduceBitmapKeeps(s, s, job, invert, doc, larger.value);
    }
    hide InFlight, ProduceBitmap, Cache.Find, Cache.Touched, Cache.LargerCompatible, FindDoc, Promoted;
  }

  lemma RenderKeeps(cfg: Config, s: State, job: RenderJob, invert: bool, doc: Document)
    requires InFlight(s.w.pc) == multiset{KeyOf(job)}
    ensures WorkerKeeps(s, RenderStep(cfg, s, job, invert, doc))
  {
    ProduceKeeps(s, s, Error(job.documentId), CriticalRoute, Some(job));
    assert forall raw :: InFlight(AfterRender(job, invert, doc, raw)) == multiset{KeyOf(job)};
    hide InFlight, Produce;
  }

  lemma AfterRenderKeeps(cfg: Config, s: State, job: RenderJob, invert: bool, doc: Document, raw: Bitmap.RawBitmap)
    requires InFlight(s.w.pc) == multiset{KeyOf(job)}
    ensures WorkerKeeps(s, AfterRenderStep(cfg, s, job, invert, doc, raw))
  {
    var bitmap := Finished(raw, invert);
    var cache := Cache.Inserted(s.w.cache, cfg.budget, CacheKeyOf(job, invert), bitmap);
    ProduceBitmapKeeps(s, s.(w := s.w.(cache := cache)), job, invert, doc, bitmap);
    assert InFlight(FinishWait(job, false)) == multiset{KeyOf(job)};
    hide InFlight, ProduceBitmap, Cache.Inserted, Finished;
  }

  lemma CommandKeeps(cfg: Config, s: State, c: Command, outcome: QueryOutcome)
    requires InFlight(s.w.pc) == multiset{} && !c.RenderPage?
    ensures c.OpenDocument? ==> WorkerKeeps(s, OpenStep(cfg, s, c.id, c.source))
    ensures c.CloseDocument? ==> WorkerKeeps(s, CloseStep(s, c.id))
    ensures c.Shutdown? ==> WorkerKeeps(s, Stop(s, Commanded))
    ensures c.RunQuery? ==> WorkerKeeps(s, QueryStep(s, c.query, c.id, outcome))
  {
    hide Cache.WithoutDocument, PopDoc, PutDoc, Promoted, FindDoc;
    assert InFlight(Stopped(Commanded)) == multiset{} && InFlight(Stopped(HandlerFailed)) == multiset{};
    assert forall q :: InFlight(NewCall(q)) == multiset{};
    match c {
      case OpenDocument(id, source) =>
        match cfg.open(source) {
          case None => ProduceKeeps(s, s, Error(id), CriticalRoute, None);
          case Some(doc) =>
            var w := s.w.(docs := PutDoc(s.w.docs, id, doc), content := s.w.content[id := doc]);
            ProduceKeeps(s, s.(w := w), DocumentOpened(id), CriticalRoute, None);
        }
      case RunQuery(query, id) =>
        var s1 := s.(w := s.w.(docs := Promoted(s.w.docs, id)));
        ProduceKeeps(s, s1, QueryResult(query, id), if IsText(query) then LossyRoute else CriticalRoute, None);
        ProduceKeeps(s, s1, Error(id), CriticalRoute, None);
      case _ =>
    }
    hide InFlight, Produce;
  }

  /** A step of the worker on a command it has taken, up to the removal of its key. */
  predicate InsideCommand(step: Step) {
    || step.DoOpen? || step.DoClose? || step.DoShutdown? || step.DoQuery? || step.DoLoadGeneration?
    || step.DoLoadInvert? || step.DoLookUp? || step.DoRender? || step.DoAfterRender?
    || step.DoEmitCheck? || step.DoEmitSend? || step.DoEmitShutdown?
  }

  lemma LoadKeeps(cfg: Config, s: State, step: Step, t: State)
    requires Next(cfg, s, step, t) && (step.DoLoadGeneration? || step.DoLoadInvert?)
    ensures WorkerKeeps(s, t)
  {}

  lemma InsideCommandKeeps(cfg: Config, s: State, step: Step, t: State)
    requires Next(cfg, s, step, t) && InsideCommand(step)
    ensures WorkerKeeps(s, t)
  {
    hide EmitCheckStep, EmitSendStep, AfterEmit, LookUpStep, RenderStep, AfterRenderStep, OpenStep, CloseStep,
      QueryStep, Stop;
    var pc := s.w.pc;
    match step {
      case DoEmitCheck => EmitCheckKeeps(s);
      case DoEmitSend => EmitSendKeeps(s);
      case DoEmitShutdown => EmitCheckKeeps(s);
      case DoLookUp => LookUpKeeps(s, pc.job, pc.invert);
      case DoRender => RenderKeeps(cfg, s, pc.job, pc.invert, pc.document);
      case DoAfterRender => AfterRenderKeeps(cfg, s, pc.job, pc.invert, pc.document, pc.raw);
      case DoLoadGeneration => LoadKeeps(cfg, s, step, t);
      case DoLoadInvert => LoadKeeps(cfg, s, step, t);
      case DoQuery(outcome) => CommandKeeps(cfg, s, pc.command, outcome);
      case DoOpen => CommandKeeps(cfg, s, pc.command, Answer);
      case DoClose => CommandKeeps(cfg, s, pc.command, Answer);
      case DoShutdown => CommandKeeps(cfg, s, pc.command, Answer);
      case _ =>
    }
    hide WorkerKeeps, InFlight;
  }

  lemma SameLive(s: State, t: State)
    requires SameQueues(s, t) && InFlight(t.w.pc) == InFlight(s.w.pc)
    ensures Live(t.q, t.w.pc) == Live(s.q, s.w.pc) && (ControlOnly(s.q) ==> ControlOnly(t.q))
  {}

  lemma TakeKeepsLive(s: State, t: State)
    requires s.w.pc.Receive? && t.w.pc.Dispatch?
    requires || (s.q.visible != [] && t.q.visible == s.q.visible[1..] && t.w.pc.command == s.q.visible[0]
               && t.q.low == s.q.low)
             || (s.q.low != [] && t.q.low == s.q.low[1..] && t.w.pc.command == s.q.low[0] && t.q.visible == s.q.visible)
    ensures Live(t.q, t.w.pc) == Live(s.q, s.w.pc)
  {
    if s.q.visible != [] { QueuedKeysTake(s.q.visible); }
    if s.q.low != [] { QueuedKeysTake(s.q.low); }
    assert InFlight(s.w.pc) == multiset{} && InFlight(t.w.pc) == KeysOf(t.w.pc.command);
    hide QueuedKeys, InFlight, KeysOf;
  }

  /** Taking a command moves its key from the queue into flight. */
  lemma ReceiveKeepsLive(s: State)
    requires s.w.pc.Receive? && ControlOnly(s.q)
    ensures var t := ReceiveStep(s);
            Live(t.q, t.w.pc) == Live(s.q, s.w.pc) && t.p == s.p && ControlOnly(t.q) && !t.w.pc.FinishLocked?
  {
    hide Live, InFlight;
    var (t, q) := (ReceiveStep(s), s.q);
    if t.w.pc.Dispatch? && s.w.pc.stage.TryControl? {
      assert IsControl(q.control[0]);
      assert InFlight(t.w.pc) == InFlight(s.w.pc) by { NoKeyInControl(s, t); }
      SameLiveTaken(s, t);
    } else if t.w.pc.Dispatch? {
      TakeKeepsLive(s, t);
    } else {
      assert InFlight(t.w.pc) == InFlight(s.w.pc) by { NoKeyWhileReceiving(s.w.pc); NoKeyWhileReceiving(t.w.pc); }
      SameLive(s, t);
    }
  }

  lemma NoKeyInControl(s: State, t: State)
    requires s.w.pc.Receive? && t.w.pc.Dispatch? && IsControl(t.w.pc.command)
    ensures InFlight(t.w.pc) == InFlight(s.w.pc)
  {}

  lemma NoKeyWhileReceiving(pc: Pc)
    requires pc.Receive? || pc.Stopped?
    ensures InFlight(pc) == multiset{}
  {}

  lemma SameLiveTaken(s: State, t: State)
    requires t.q.visible == s.q.visible && t.q.low == s.q.low && InFlight(t.w.pc) == InFlight(s.w.pc)
    ensures Live(t.q, t.w.pc) == Live(s.q, s.w.pc)
  {}

  function Locked(p: Shared, lock: Lock): Shared {
    p.(lock := lock)
  }

  lemma SendChangesLive(s: State, job: RenderJob)
    ensures var t := TrySend(s, job);
            && Live(t.q, t.w.pc)
               == Live(s.q, s.w.pc) + (if t.p.lock == Sending(job, Sent) then multiset{KeyOf(job)} else multiset{})
            && t.q.control == s.q.control && t.w == s.w
            && t.p == Locked(s.p, t.p.lock) && (t.p.lock == Sending(job, Sent) || t.p.lock == Sending(job, Settled))
  {
    QueuedKeysPush(s.q.visible, RenderPage(job));
    QueuedKeysPush(s.q.low, RenderPage(job));
    hide QueuedKeys;
  }

  lemma SendOtherKeepsLive(s: State, c: Command)
    requires ControlOnly(s.q) && !c.RenderPage?
    ensures var t := SendOtherStep(s, c);
            Live(t.q, t.w.pc) == Live(s.q, s.w.pc) && t.p == s.p && t.w == s.w && ControlOnly(t.q)
  {
    QueuedKeysPush(s.q.low, c);
    hide QueuedKeys;
  }

  // The protocol of the lock, the pending set and the live jobs on its own

  /** What the invariants speak of. */
  datatype View = View(lock: Lock, pending: set<RequestKey>, generation: nat, live: multiset<RequestKey>)

  function ViewOf(s: State): View {
    View(s.p.lock, s.p.pending, s.p.generation, Live(s.q, s.w.pc))
  }

  datatype Move =
    | Begin(job: RenderJob) | Look | Queue | Register | LetGo
    | StartBump | Advance | Retain
    | StartRemove | Remove(key: RequestKey)
    | Stay

  /** `move` takes `v` to `w`. */
  predicate Moves(v: View, move: Move, w: View) {
    match move
    case Begin(job) => v.lock.Free? && w == v.(lock := Sending(job, Acquired))
    case Look =>
      && v.lock.Sending? && v.lock.stage.Acquired?
      && w == v.(lock := Sending(v.lock.job, if KeyOf(v.lock.job) in v.pending then Settled else Checked))
    case Queue =>
      && v.lock.Sending? && v.lock.stage.Checked?
      && (|| w == v.(lock := Sending(v.lock.job, Settled))
          || w == v.(lock := Sending(v.lock.job, Sent), live := v.live + multiset{KeyOf(v.lock.job)}))
    case Register =>
      && v.lock.Sending? && v.lock.stage.Sent?
      && w == v.(lock := Sending(v.lock.job, Settled), pending := v.pending + {KeyOf(v.lock.job)})
    case LetGo => ((v.lock.Sending? && v.lock.stage.Settled?) || v.lock == Bumping(Retained)) && w == v.(lock := Free)
    case StartBump => v.lock.Free? && w == v.(lock := Bumping(Entered))
    case Advance => v.lock == Bumping(Entered) && w == v.(lock := Bumping(Added), generation := v.generation + 1)
    case Retain =>
      && v.lock == Bumping(Added)
      && w == v.(lock := Bumping(Retained), pending := set k | k in v.pending && k.generation == v.generation)
    case StartRemove => v.lock.Free? && w == v.(lock := Removing)
    case Remove(key) =>
      && v.lock.Removing? && key in v.live
      && w == v.(lock := Free, pending := v.pending - {key}, live := v.live - multiset{key})
    case Stay => w == v
  }

  function MoveOf(s: State, step: Step): Move {
    match step
    case SendAcquire(job) => Begin(job)
    case SendCheck => Look
    case SendTry => Queue
    case SendInsert => Register
    case SendRelease => LetGo
    case BumpAcquire => StartBump
    case BumpAdd => Advance
    case BumpRetain => Retain
    case BumpRelease => LetGo
    case DoFinishAcquire => StartRemove
    case DoFinishRemove => if s.w.pc.FinishLocked? then Remove(KeyOf(s.w.pc.job)) else Stay
    case _ => Stay
  }

  /** Control commands stay in their queue, and the worker holds the lock only to remove a key. */
  predicate Tidy(s: State) {
    ControlOnly(s.q) && (s.p.lock.Removing? <==> s.w.pc.FinishLocked?)
  }

  lemma DropOne(rest: multiset<RequestKey>, key: RequestKey)
    ensures (rest + multiset{key}) - multiset{key} == rest + multiset{}
  {}

  lemma RemoveMoves(s: State, t: State)
    requires s.w.pc.FinishLocked? && Tidy(s)
    requires var s1 := s.(p := s.p.(pending := s.p.pending - {KeyOf(s.w.pc.job)}, lock := Free));
             t == if s.w.pc.ok then NextCommand(s1) else Stop(s1, HandlerFailed)
    ensures Tidy(t) && Moves(ViewOf(s), Remove(KeyOf(s.w.pc.job)), ViewOf(t))
  {
    hide QueuedKeys, KeyOf;
    var key := KeyOf(s.w.pc.job);
    NoKeyWhileReceiving(t.w.pc);
    assert InFlight(s.w.pc) == multiset{key};
    assert SameQueues(s, t) && ControlOnly(t.q);
    hide InFlight, WaitAtCall, ControlOnly;
    DropOne(QueuedKeys(s.q.visible) + QueuedKeys(s.q.low), key);
  }

  lemma SendTryMoves(s: State)
    requires s.p.lock.Sending? && s.p.lock.stage.Checked? && Tidy(s)
    ensures var t := TrySend(s, s.p.lock.job); Tidy(t) && Moves(ViewOf(s), Queue, ViewOf(t))
  {
    SendChangesLive(s, s.p.lock.job);
    hide TrySend, Live;
  }

  /** The steps under the lock of a caller, and the worker's step into the lock. */
  predicate LockStep(step: Step) {
    || step.SendAcquire? || step.SendCheck? || step.SendInsert? || step.SendRelease?
    || step.BumpAcquire? || step.BumpAdd? || step.BumpRetain? || step.BumpRelease?
  }

  lemma LockStepMoves(cfg: Config, s: State, step: Step, t: State)
    requires Next(cfg, s, step, t) && LockStep(step) && Tidy(s)
    ensures Tidy(t) && Moves(ViewOf(s), MoveOf(s, step), ViewOf(t))
  {
    hide Live, ControlOnly, KeyOf;
  }

  lemma FinishAcquireMoves(cfg: Config, s: State, t: State)
    requires Next(cfg, s, DoFinishAcquire, t) && Tidy(s)
    ensures Tidy(t) && Moves(ViewOf(s), StartRemove, ViewOf(t))
  {
    hide QueuedKeys, InFlight, ControlOnly, KeyOf;
    FinishInFlight(s.w.pc.job, s.w.pc.ok);
  }

  lemma FinishInFlight(job: RenderJob, ok: bool)
    ensures InFlight(FinishLocked(job, ok)) == InFlight(FinishWait(job, ok))
  {}

  /** The steps of callers that leave the lock, the queues and the worker alone. */
  predicate AsideStep(step: Step) {
    step.SetInvert? || step.SignalShutdown? || step.DropScheduler? || step.UiFirst? || step.UiThen?
  }

  lemma AsideStepMoves(cfg: Config, s: State, step: Step, t: State)
    requires Next(cfg, s, step, t) && AsideStep(step) && Tidy(s)
    ensures Tidy(t) && ViewOf(t) == ViewOf(s)
  {
    hide Live, ControlOnly, KeyOf;
  }

  lemma KeptMoves(s: State, t: State)
    requires Tidy(s) && t.p == s.p && ControlOnly(t.q) && Live(t.q, t.w.pc) == Live(s.q, s.w.pc)
    requires s.w.pc.FinishLocked? <==> t.w.pc.FinishLocked?
    ensures Tidy(t) && ViewOf(t) == ViewOf(s)
  {}

  /** Every step of the pipeline is a move of the protocol. */
  lemma StepMoves(cfg: Config, s: State, step: Step, t: State)
    requires Next(cfg, s, step, t) && Tidy(s)
    ensures Tidy(t) && Moves(ViewOf(s), MoveOf(s, step), ViewOf(t))
  {
    hide Live, ViewOf, Tidy, KeyOf, ReceiveStep, TrySend, SendOtherStep;
    if InsideCommand(step) {
      InsideMoves(cfg, s, step, t);
    } else if LockStep(step) {
      LockStepMoves(cfg, s, step, t);
    } else if AsideStep(step) {
      AsideStepMoves(cfg, s, step, t);
    } else {
      OtherMoves(cfg, s, step, t);
    }
    hide Moves, Next;
  }

  lemma InsideMoves(cfg: Config, s: State, step: Step, t: State)
    requires Next(cfg, s, step, t) && Tidy(s) && InsideCommand(step)
    ensures Tidy(t) && ViewOf(t) == ViewOf(s)
  {
    InsideCommandKeeps(cfg, s, step, t);
    assert !s.w.pc.FinishLocked?;
    hide Next;
    SameLive(s, t);
    KeptMoves(s, t);
  }

  lemma OtherMoves(cfg: Config, s: State, step: Step, t: State)
    requires Next(cfg, s, step, t) && Tidy(s) && !InsideCommand(step) && !LockStep(step) && !AsideStep(step)
    ensures Tidy(t) && Moves(ViewOf(s), MoveOf(s, step), ViewOf(t))
  {
    hide Live, ViewOf, Moves, KeyOf, ReceiveStep, TrySend, SendOtherStep, NextCommand, Stop;
    match step {
      case SendTry => SendTryMoves(s);
      case DoFinishAcquire => FinishAcquireMoves(cfg, s, t);
      case DoFinishRemove => RemoveMoves(s, t);
      case DoReceive =>
        ReceiveKeepsLive(s);
        StayMoves(s, t);
      case SendOther(c) =>
        SendOtherKeepsLive(s, c);
        StayMoves(s, t);
      case _ =>
    }
  }

  lemma StayMoves(s: State, t: State)
    requires Tidy(s) && t.p == s.p && ControlOnly(t.q) && Live(t.q, t.w.pc) == Live(s.q, s.w.pc)
    requires s.w.pc.FinishLocked? <==> t.w.pc.FinishLocked?
    ensures Tidy(t) && Moves(ViewOf(s), Stay, ViewOf(t))
  {
    KeptMoves(s, t);
  }

  // The invariants

  /** Every pending key has a live job; a job just queued is live until its sender lets go. */
  ghost predicate NoLeak(v: View) {
    && (forall k :: k in v.pending ==> k in v.live)
    && (v.lock.Sending? && v.lock.stage.Sent? ==> KeyOf(v.lock.job) in v.live)
  }

  /** No one is more than one generation ahead, and no one is ahead of a bump that has just counted. */
  ghost predicate NoFuture(v: View) {
    var latest := if v.lock == Bumping(Added) then v.generation else v.generation + 1;
    && (forall k :: k in v.live ==> k.generation <= latest)
    && (forall k :: k in v.pending ==> k.generation <= latest)
    && (v.lock.Sending? ==> v.lock.job.generation <= v.generation + 1)
  }

  /** Whether the holder of the lock has queued a job for the key but not yet registered it. */
  function Unregistered(lock: Lock, k: RequestKey): nat {
    if lock.Sending? && lock.stage.Sent? && KeyOf(lock.job) == k then 1 else 0
  }

  /**
   * Of every current request, and every request of the next generation, there is one live job if it is pending
   * or about to be, else none.
   */
  ghost predicate OneJobEach(v: View) {
    && (forall k: RequestKey :: v.generation <= k.generation <= v.generation + 1 ==>
          v.live[k] == (if k in v.pending then 1 else 0) + Unregistered(v.lock, k))
    && (v.lock.Sending? && (v.lock.stage.Checked? || v.lock.stage.Sent?) ==> KeyOf(v.lock.job) !in v.pending)
  }

  lemma NoLeakKept(v: View, move: Move, w: View)
    requires Moves(v, move, w) && NoLeak(v)
    ensures NoLeak(w)
  {
    hide KeyOf;
  }

  /** A caller sends a job at most one generation ahead. */
  predicate Honest(v: View, move: Move) {
    move.Begin? ==> move.job.generation <= v.generation + 1
  }

  lemma NoFutureKept(v: View, move: Move, w: View)
    requires Moves(v, move, w) && NoFuture(v) && Honest(v, move)
    ensures NoFuture(w)
  {}

  predicate BumpMove(move: Move) {
    move.StartBump? || move.Advance? || move.Retain?
  }

  lemma BumpKeepsOneJob(v: View, move: Move, w: View)
    requires Moves(v, move, w) && BumpMove(move) && NoLeak(v) && NoFuture(v) && OneJobEach(v)
    ensures OneJobEach(w)
  {
    hide KeyOf;
  }

  lemma RemoveKeepsOneJob(v: View, key: RequestKey, w: View)
    requires Moves(v, Remove(key), w) && OneJobEach(v)
    ensures OneJobEach(w)
  {
    hide KeyOf;
  }

  lemma SendKeepsOneJob(v: View, move: Move, w: View)
    requires Moves(v, move, w) && !BumpMove(move) && !move.Remove? && OneJobEach(v)
    ensures OneJobEach(w)
  {
    hide KeyOf;
  }

  lemma OneJobEachKept(v: View, move: Move, w: View)
    requires Moves(v, move, w) && NoLeak(v) && NoFuture(v) && OneJobEach(v)
    ensures OneJobEach(w)
  {
    hide Moves, NoLeak, NoFuture, OneJobEach;
    if BumpMove(move) {
      BumpKeepsOneJob(v, move, w);
    } else if move.Remove? {
      RemoveKeepsOneJob(v, move.key, w);
    } else {
      SendKeepsOneJob(v, move, w);
    }
  }

  // Whole runs

  lemma RunStarts(cfg: Config, run: seq<State>, steps: seq<Step>)
    requires IsRun(cfg, run, steps)
    ensures Tidy(run[0]) && NoLeak(ViewOf(run[0])) && NoFuture(ViewOf(run[0])) && OneJobEach(ViewOf(run[0]))
  {
    assert QueuedKeys([]) == multiset{};
  }

  lemma RunGoesOn(cfg: Config, run: seq<State>, steps: seq<Step>, i: nat)
    requires IsRun(cfg, run, steps) && i < |steps|
    ensures |run| == |steps| + 1 && Next(cfg, run[i], steps[i], run[i + 1])
  {
    hide Next;
  }

  lemma {:induction false} NoLeakAlways(cfg: Config, run: seq<State>, steps: seq<Step>, i: nat)
    requires IsRun(cfg, run, steps) && i < |run|
    ensures Tidy(run[i]) && NoLeak(ViewOf(run[i]))
  {
    hide *;
    RunLength(cfg, run, steps);
    if i > 0 {
      NoLeakAlways(cfg, run, steps, i - 1);
      RunGoesOn(cfg, run, steps, i - 1);
      StepMoves(cfg, run[i - 1], steps[i - 1], run[i]);
      NoLeakKept(ViewOf(run[i - 1]), MoveOf(run[i - 1], steps[i - 1]), ViewOf(run[i]));
    } else {
      RunStarts(cfg, run, steps);
    }
  }

  /** Every caller of the run is honest. */
  ghost predicate HonestRun(run: seq<State>, steps: seq<Step>)
    requires |run| == |steps| + 1
  {
    forall i :: 0 <= i < |steps| && steps[i].SendAcquire? ==> steps[i].job.generation <= run[i].p.generation + 1
  }

  lemma HonestMove(run: seq<State>, steps: seq<Step>, i: nat)
    requires |run| == |steps| + 1 && HonestRun(run, steps) && i < |steps|
    ensures Honest(ViewOf(run[i]), MoveOf(run[i], steps[i]))
  {
    hide Live, KeyOf;
  }

  lemma {:induction false} OneJobEachAlways(cfg: Config, run: seq<State>, steps: seq<Step>, i: nat)
    requires IsRun(cfg, run, steps) && HonestRun(run, steps) && i < |run|
    ensures NoFuture(ViewOf(run[i])) && OneJobEach(ViewOf(run[i]))
  {
    hide *;
    RunLength(cfg, run, steps);
    if i > 0 {
      OneJobEachAlways(cfg, run, steps, i - 1);
      NoLeakAlways(cfg, run, steps, i - 1);
      RunGoesOn(cfg, run, steps, i - 1);
      HonestMove(run, steps, i - 1);
      StepMoves(cfg, run[i - 1], steps[i - 1], run[i]);
      NoFutureKept(ViewOf(run[i - 1]), MoveOf(run[i - 1], steps[i - 1]), ViewOf(run[i]));
      OneJobEachKept(ViewOf(run[i - 1]), MoveOf(run[i - 1], steps[i - 1]), ViewOf(run[i]));
    } else {
      RunStarts(cfg, run, steps);
    }
  }

  /** A render request with this key waits in the queue. */
  ghost predicate Waits(cs: seq<Command>, k: RequestKey) {
    exists i :: 0 <= i < |cs| && cs[i].RenderPage? && KeyOf(cs[i].job) == k
  }

  lemma {:induction false} WaitsIsQueued(cs: seq<Command>, k: RequestKey)
    ensures Waits(cs, k) <==> k in QueuedKeys(cs)
  {
    if cs != [] {
      var (rest, last) := (cs[..|cs| - 1], cs[|cs| - 1]);
      WaitsIsQueued(rest, k);
      assert cs == rest + [last];
      if Waits(rest, k) {
        var i :| 0 <= i < |rest| && rest[i].RenderPage? && KeyOf(rest[i].job) == k;
        assert cs[i] == rest[i];
      }
      if Waits(cs, k) && !(last.RenderPage? && KeyOf(last.job) == k) {
        var i :| 0 <= i < |cs| && cs[i].RenderPage? && KeyOf(cs[i].job) == k;
        assert rest[i] == cs[i];
      }
    }
  }

  /** No leaked key: until the worker stops, a pending request waits in a queue or is with the worker. */
  lemma NoLeakedKey(cfg: Config, run: seq<State>, steps: seq<Step>, i: nat, k: RequestKey)
    requires IsRun(cfg, run, steps) && i < |run| && k in run[i].p.pending && !run[i].w.pc.Stopped?
    ensures Waits(run[i].q.visible, k) || Waits(run[i].q.low, k) || k in InFlight(run[i].w.pc)
  {
    NoLeakAlways(cfg, run, steps, i);
    WaitsIsQueued(run[i].q.visible, k);
    WaitsIsQueued(run[i].q.low, k);
  }

  /**
   * With the lock free and the worker alive, a request of the current generation is pending exactly
   * when one job for it is live, and never are two. The same holds of the next generation.
   */
  lemma PendingMeansOneJob(cfg: Config, run: seq<State>, steps: seq<Step>, i: nat, k: RequestKey)
    requires IsRun(cfg, run, steps) && HonestRun(run, steps) && i < |run| && !run[i].w.pc.Stopped?
    requires run[i].p.lock.Free? && run[i].p.generation <= k.generation <= run[i].p.generation + 1
    ensures k in run[i].p.pending <==> Live(run[i].q, run[i].w.pc)[k] == 1
    ensures k !in run[i].p.pending <==> Live(run[i].q, run[i].w.pc)[k] == 0
  {
    OneJobEachAlways(cfg, run, steps, i);
    hide Live;
  }

  // After the worker has stopped

  /** The pending keys and the key of a job that is in a queue but not registered yet. */
  function Claims(p: Shared): set<RequestKey> {
    p.pending + if p.lock.Sending? && p.lock.stage.Sent? then {KeyOf(p.lock.job)} else {}
  }

  /** What a step with a stopped worker keeps. */
  ghost predicate StaysStopped(s: State, t: State) {
    && t.w == s.w && t.q == s.q && s.p.generation <= t.p.generation
    && Claims(t.p) <= Claims(s.p)
    && (forall k :: k in s.p.pending && k.generation == s.p.generation == t.p.generation ==> k in t.p.pending)
  }

  lemma LockStepStaysStopped(cfg: Config, s: State, step: Step, t: State)
    requires Next(cfg, s, step, t) && s.w.pc.Stopped? && LockStep(step)
    ensures StaysStopped(s, t)
  {
    hide KeyOf;
  }

  lemma OtherStepStaysStopped(cfg: Config, s: State, step: Step, t: State)
    requires Next(cfg, s, step, t) && s.w.pc.Stopped? && !LockStep(step)
    ensures StaysStopped(s, t)
  {
    assert !InsideCommand(step);
    assert t.w == s.w && t.q == s.q && t.p.pending == s.p.pending && t.p.generation == s.p.generation;
    assert t.p.lock == s.p.lock || (step.SendTry? && t.p.lock == Sending(s.p.lock.job, Settled));
    hide Next, KeyOf;
  }

  /** No step receives, queues or claims anything, and only a bump of the generation gives a claim up. */
  lemma StoppedStep(cfg: Config, s: State, step: Step, t: State)
    requires Next(cfg, s, step, t) && s.w.pc.Stopped?
    ensures StaysStopped(s, t)
  {
    hide Next, StaysStopped;
    if LockStep(step) {
      LockStepStaysStopped(cfg, s, step, t);
    } else {
      OtherStepStaysStopped(cfg, s, step, t);
    }
  }

  /**
   * A request that is pending when the worker stops leaks: no job for it will ever be received, and it
   * stays pending for as long as its generation is current. Nothing becomes pending any more that was
   * not about to be.
   */
  lemma {:induction false} StoppedWorkerLeaks(cfg: Config, run: seq<State>, steps: seq<Step>, i: nat, j: nat,
      k: RequestKey)
    requires IsRun(cfg, run, steps) && i <= j < |run| && run[i].w.pc.Stopped?
    ensures run[j].w == run[i].w && run[j].q == run[i].q && run[i].p.generation <= run[j].p.generation
    ensures k in run[i].p.pending && k.generation == run[j].p.generation == run[i].p.generation ==>
              k in run[j].p.pending
    ensures k in run[j].p.pending ==> k in Claims(run[i].p)
    ensures Claims(run[j].p) <= Claims(run[i].p)
  {
    hide *;
    RunLength(cfg, run, steps);
    PendingIsClaimed(run[j].p, k);
    if i < j {
      StoppedWorkerLeaks(cfg, run, steps, i, j - 1, k);
      RunGoesOn(cfg, run, steps, j - 1);
      StoppedStep(cfg, run[j - 1], steps[j - 1], run[j]);
      StoppedStepKeeps(run[j - 1], run[j], k);
    }
  }

  lemma PendingIsClaimed(p: Shared, k: RequestKey)
    ensures k in p.pending ==> k in Claims(p)
  {}

  lemma StoppedStepKeeps(s: State, t: State, k: RequestKey)
    requires StaysStopped(s, t)
    ensures t.w == s.w && t.q == s.q && s.p.generation <= t.p.generation && Claims(t.p) <= Claims(s.p)
    ensures k in s.p.pending && k.generation == s.p.generation == t.p.generation ==> k in t.p.pending
  {
    hide Claims;
  }

  // A job from the future

  lemma SendRegisters(s: State, job: RenderJob)
    requires !s.w.pc.Stopped? && HasRoom(s.q, RenderPage(job)) && KeyOf(job) !in s.p.pending && s.p.lock == Free
    ensures var t := AfterSend(s, RenderPage(job));
            && t.p == s.p.(pending := s.p.pending + {KeyOf(job)}) && t.w == s.w && t.l == s.l
            && Live(t.q, t.w.pc) == Live(s.q, s.w.pc) + multiset{KeyOf(job)}
  {
    SendChangesLive(s, job);
    hide Live, KeyOf;
  }

  /**
   * One generation ahead is as far as a caller may go: every run whose lock is free and whose worker
   * and scheduler are alive goes on, for any job two or more generations ahead that is not live and
   * has room in its queue, to a state in which this job is live and current but not pending.
   */
  lemma FutureJobBreaksIt(cfg: Config, run: seq<State>, steps: seq<Step>, job: RenderJob)
    returns (longer: seq<State>, more: seq<Step>)
    requires IsRun(cfg, run, steps)
    requires var s := run[|steps|];
             && s.p.lock == Free && !s.l.schedulerDropped && !s.w.pc.Stopped? && HasRoom(s.q, RenderPage(job))
             && KeyOf(job) !in Live(s.q, s.w.pc) && job.generation >= s.p.generation + 2
    ensures IsRun(cfg, longer, more) && run <= longer
    ensures var t := longer[|more|];
            && t.p.lock == Free && !t.w.pc.Stopped? && t.p.generation == job.generation
            && Live(t.q, t.w.pc)[KeyOf(job)] == 1 && KeyOf(job) !in t.p.pending
  {
    var (s, key) := (run[|steps|], KeyOf(job));
    NoLeakAlways(cfg, run, steps, |steps|);
    assert key !in s.p.pending;
    var states, sending := SendIsASequenceOfSteps(cfg, s, job);
    SendRegisters(s, job);
    RunExtends(cfg, run, steps, states, sending);
    assert key.generation == job.generation;
    hide IsRun, Chain, Live, KeyOf, AfterSend, HasRoom;
    var sent := states[|sending|];
    longer, more := BumpsRun(cfg, run + states[1..], steps + sending, job.generation - s.p.generation);
  }
}
