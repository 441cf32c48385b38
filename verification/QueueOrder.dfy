// What the three command queues promise over every run: each is received in the order in which
// it was sent and without loss, control goes first, low work is not starved, and the worker
// stops only when it was told to.

module QueueOrder {
  import opened Wrappers
  import opened RenderTypes
  import opened RenderPipeline
  import Bitmap
  import Cache

  // The part of the state the queues depend on

  /** What the worker does, as far as the queues are concerned. */
  datatype Activity =
    | Receiving(stage: ReceiveStage, call: Call)
    | Handling(command: Command, call: Call)
    | Busy(failing: bool)
    | Halted(reason: StopReason)

  function ActivityOf(pc: Pc): Activity {
    match pc
    case Receive(stage, call) => Receiving(stage, call)
    case Dispatch(command, call) => Handling(command, call)
    case FinishWait(_, ok) => Busy(!ok)
    case FinishLocked(_, ok) => Busy(!ok)
    case Stopped(reason) => Halted(reason)
    case _ => Busy(false)
  }

  datatype View = View(q: Queues, budget: nat, activity: Activity, sending: bool, life: Life)

  function ViewOf(s: State): View {
    View(s.q, s.w.budget, ActivityOf(s.w.pc), s.p.lock.Sending?, s.l)
  }

  // The moves

  ghost predicate Pushes(v: View, w: View) {
    && !v.life.schedulerDropped
    && w.budget == v.budget && w.activity == v.activity && w.life == v.life && w.sending == v.sending
    && (|| w.q == v.q
        || exists c ::
             || (IsControl(c) && |v.q.control| < CONTROL_CAPACITY && w.q == PushControl(v.q, c))
             || (IsVisible(c) && |v.q.visible| < VISIBLE_CAPACITY && w.q == PushVisible(v.q, c))
             || (!IsControl(c) && !IsVisible(c) && |v.q.low| < LOW_CAPACITY && w.q == PushLow(v.q, c)))
  }

  /** A step on a command: the worker stays with it, takes up the next one, or stops. */
  predicate Works(v: View, w: View) {
    && (v.activity.Handling? || v.activity.Busy?)
    && w.budget == v.budget && w.sending == v.sending
    && w.life.shutdownEver == v.life.shutdownEver && w.life.schedulerDropped == v.life.schedulerDropped
    && (w.life.signal ==> v.life.signal)
    && (v.life.signal && !w.life.signal ==> w.activity == Busy(true) || w.activity.Halted?)
    && (v.activity == Busy(true) ==> w.activity == Busy(true) || w.activity.Halted?)
    && match w.activity
       case Busy(failing) => w.q == v.q && (failing ==> v.activity == Busy(true) || ShutdownSeen(v.life))
       case Receiving(stage, call) =>
         && stage.SeeShutdown? && w.q == WaitAtCall(v.q) && call.lowWaiting == (w.q.low != [])
         && call.controlOpen && call.visibleOpen && call.lowOpen
       case Halted(reason) =>
         && w.q == v.q && !reason.Drained?
         && (reason.Commanded? ==> v.activity.Handling? && v.activity.command.Shutdown?)
         && (!reason.Commanded? ==> v.activity == Busy(true) || ShutdownSeen(v.life))
       case Handling(_, _) => false
  }

  /** A caller's step that leaves the queues and the worker alone. */
  predicate Aside(v: View, w: View) {
    && w.q == v.q && w.budget == v.budget && w.activity == v.activity
    && (w.sending ==> v.sending || !v.life.schedulerDropped)
    && (w.life.signal ==> v.life.signal || w.life.shutdownEver) && (v.life.signal ==> w.life.signal)
    && (v.life.shutdownEver ==> w.life.shutdownEver) && (w.life.shutdownEver ==> v.life.shutdownEver || w.life.signal)
    && (v.life.schedulerDropped ==> w.life.schedulerDropped)
    && (w.life.schedulerDropped ==> v.life.schedulerDropped || (w.life.shutdownEver && !w.sending))
  }

  /** One stage of `receive_command` on the view. */
  predicate Receives(v: View, w: View) {
    && v.activity.Receiving? && w.sending == v.sending
    && w.life.shutdownEver == v.life.shutdownEver && w.life.schedulerDropped == v.life.schedulerDropped
    && (w.life.signal ==> v.life.signal)
    && (v.life.signal && !w.life.signal ==> v.activity.stage.SeeShutdown?)
    && var (q, call, open, budget) := (v.q, v.activity.call, !v.life.schedulerDropped, v.budget);
       match v.activity.stage
       case SeeShutdown =>
         && w.q == q && w.budget == budget
         && w.activity == (if ShutdownSeen(v.life) then Halted(Signalled)
                           else Receiving(TryControl, call.(controlSeen := |q.sentControl|, lowOpen := true)))
       case TryControl =>
         && w.budget == budget
         && if q.control != [] then w.q == TakeControl(q) && w.activity == Handling(q.control[0], call)
            else
              var next := if budget >= VISIBLE_BURST then TryLowFirst else TryVisible;
              w.q == q && w.activity == Receiving(next, call.(controlOpen := open))
       case TryVisible =>
         if q.visible != [] then
           w.q == TakeVisible(q, call.lowWaiting) && w.budget == budget + 1
             && w.activity == Handling(q.visible[0], call)
         else
           && w.q == q && w.budget == budget
           && var next := if budget < VISIBLE_BURST then TryLowSecond else CheckClosed;
              w.activity == Receiving(next, call.(visibleOpen := open))
       case CheckClosed =>
         && w.q == q && w.budget == budget
         && w.activity == (if !call.controlOpen && !call.visibleOpen && !call.lowOpen then Halted(Drained)
                           else Receiving(SeeShutdown, call))
       case TryLowFirst =>
         if q.low != [] then w.q == TakeLow(q) && w.budget == 0 && w.activity == Handling(q.low[0], call)
         else w.q == q && w.budget == budget && w.activity == Receiving(TryVisible, call.(lowOpen := open))
       case TryLowSecond =>
         if q.low != [] then w.q == TakeLow(q) && w.budget == 0 && w.activity == Handling(q.low[0], call)
         else w.q == q && w.budget == budget && w.activity == Receiving(CheckClosed, call.(lowOpen := open))
  }

  ghost predicate Moves(v: View, w: View) {
    Pushes(v, w) || Works(v, w) || Aside(v, w) || Receives(v, w)
  }

  // Every step is a move

  lemma ReceiveMoves(s: State)
    requires s.w.pc.Receive?
    ensures Receives(ViewOf(s), ViewOf(ReceiveStep(s)))
  {
    hide TakeControl, TakeVisible, TakeLow;
  }

  lemma NextWorks(s: State, s1: State)
    requires ActivityOf(s.w.pc).Handling? || ActivityOf(s.w.pc) == Busy(false)
    requires s1.q == s.q && s1.w.budget == s.w.budget && s1.p.lock.Sending? == s.p.lock.Sending? && s1.l == s.l
    ensures Works(ViewOf(s), ViewOf(NextCommand(s1)))
  {
    var q := WaitAtCall(s1.q);
    assert ActivityOf(NewCall(q)) == Receiving(SeeShutdown, Call(q.low != [], 0, true, true, true));
    hide ActivityOf, WaitAtCall;
  }

  /** The state after a step with a busy worker. */
  lemma StaysBusy(s: State, t: State)
    requires ActivityOf(s.w.pc).Handling? || ActivityOf(s.w.pc).Busy?
    requires t.q == s.q && t.w.budget == s.w.budget && t.p.lock.Sending? == s.p.lock.Sending?
    requires t.l.shutdownEver == s.l.shutdownEver && t.l.schedulerDropped == s.l.schedulerDropped
               && (t.l.signal ==> s.l.signal)
    requires s.l.signal && !t.l.signal ==> ActivityOf(t.w.pc) == Busy(true)
    requires ActivityOf(s.w.pc) == Busy(true) ==> ActivityOf(t.w.pc) == Busy(true)
    requires ActivityOf(t.w.pc).Busy? && (ActivityOf(t.w.pc).failing
               ==> ActivityOf(s.w.pc) == Busy(true) || ShutdownSeen(s.l))
    ensures Works(ViewOf(s), ViewOf(t))
  {
    hide ActivityOf;
  }

  lemma AfterEmitWorks(s: State, s1: State, forJob: Option<RenderJob>, ok: bool)
    requires s.w.pc.Emit?
    requires s1.q == s.q && s1.w == s.w && s1.p == s.p
    requires s1.l == s.l || (s1.l == s.l.(signal := false) && !ok)
    requires !ok ==> ShutdownSeen(s.l)
    ensures Works(ViewOf(s), ViewOf(AfterEmit(s1, forJob, ok)))
  {
    assert ActivityOf(s.w.pc) == Busy(false);
    if forJob.Some? {
      assert ActivityOf(FinishWait(forJob.value, ok)) == Busy(!ok);
      StaysBusy(s, s1.(w := s1.w.(pc := FinishWait(forJob.value, ok))));
    } else if ok {
      NextWorks(s, s1);
    } else {
      assert ActivityOf(Stopped(HandlerFailed)) == Halted(HandlerFailed);
    }
    hide ActivityOf, NextCommand;
  }

  lemma EmitWorks(s: State)
    requires s.w.pc.Emit?
    ensures Works(ViewOf(s), ViewOf(EmitCheckStep(s)))
    ensures Works(ViewOf(s), ViewOf(EmitSendStep(s)))
    ensures ShutdownSeen(s.l) ==> Works(ViewOf(s),
              ViewOf(AfterEmit(Abandon(Consume(s), s.w.pc.event), s.w.pc.forJob, false)))
  {
    var pc := s.w.pc;
    var (event, forJob) := (pc.event, pc.forJob);
    if ShutdownSeen(s.l) {
      AfterEmitWorks(s, Abandon(Consume(s), event), forJob, false);
      AfterEmitWorks(s, Abandon(s, event), forJob, false);
    }
    AfterEmitWorks(s, s.(e := PutCritical(s.e, event)), forJob, true);
    AfterEmitWorks(s, s.(e := PutEvent(s.e, event)), forJob, true);
    AfterEmitWorks(s, s.(e := s.e.(dropped := s.e.dropped + multiset{event})), forJob, true);
    StaysBusy(s, s.(w := s.w.(pc := pc.(emitStage := EmitSend))));
    StaysBusy(s, s.(w := s.w.(pc := Emit(EmitCheck, CriticalRoute, event, forJob))));
    hide AfterEmit, Abandon, Consume, PutCritical, PutEvent, Works, ViewOf;
  }

  lemma ProduceWorks(s: State, s1: State, body: EventBody, route: Route, forJob: Option<RenderJob>)
    requires ActivityOf(s.w.pc).Handling? || ActivityOf(s.w.pc) == Busy(false)
    requires s1.q == s.q && s1.w.budget == s.w.budget && s1.p == s.p && s1.l == s.l
    ensures Works(ViewOf(s), ViewOf(Produce(s1, body, route, forJob)))
  {
    assert ActivityOf(Produce(s1, body, route, forJob).w.pc) == Busy(false);
    StaysBusy(s, Produce(s1, body, route, forJob));
    hide Works, ViewOf, ActivityOf;
  }

  lemma ProduceBitmapWorks(s: State, s1: State, job: RenderJob, invert: bool, doc: Document, b: Bitmap.RawBitmap)
    requires ActivityOf(s.w.pc).Handling? || ActivityOf(s.w.pc) == Busy(false)
    requires s1.q == s.q && s1.w.budget == s.w.budget && s1.p == s.p && s1.l == s.l
    ensures Works(ViewOf(s), ViewOf(ProduceBitmap(s1, job, invert, doc, b)))
  {
    var s2 := s1.(w := s1.w.(emissions := s1.w.emissions + [Emission(job, invert, doc, b)]));
    ProduceWorks(s, s2, PageRendered(job, b), if job.kind == Page then PageRoute else LossyRoute, Some(job));
    hide Produce, Works, ViewOf, ActivityOf;
  }

  lemma LookUpWorks(s: State, job: RenderJob, invert: bool)
    requires s.w.pc == LookUp(job, invert)
    ensures Works(ViewOf(s), ViewOf(LookUpStep(s, job, invert)))
  {
    var key := CacheKeyOf(job, invert);
    var cache := s.w.cache;
    var at := Cache.Find(cache, key);
    var doc := if job.documentId in s.w.content then s.w.content[job.documentId] else 0;
    var larger := Cache.LargerCompatible(cache, job.documentId, job.pageIndex, job.rotation, invert, job.targetWidth,
      job.targetHeight);
    var d := FindDoc(s.w.docs, job.documentId);
    assert ActivityOf(s.w.pc) == Busy(false);
    if at < |cache| {
      ProduceBitmapWorks(s, s.(w := s.w.(cache := Cache.Touched(cache, key))), job, invert, doc, cache[at].bitmap);
    } else if larger.Some? {
      ProduceBitmapWorks(s, s, job, invert, doc, larger.value);
    } else if d == |s.w.docs| {
      StaysBusy(s, s.(w := s.w.(pc := FinishWait(job, true))));
    } else {
      var entry := s.w.docs[d];
      StaysBusy(s, s.(w := s.w.(docs := Promoted(s.w.docs, job.documentId), pc := Rendering(job, invert, entry.1))));
    }
    hide ProduceBitmap, Works, ViewOf, ActivityOf, Cache.Find, Cache.Touched, Cache.LargerCompatible, FindDoc, Promoted;
  }

  lemma RenderWorks(cfg: Config, s: State, job: RenderJob, invert: bool, doc: Document)
    requires s.w.pc == Rendering(job, invert, doc)
    ensures Works(ViewOf(s), ViewOf(RenderStep(cfg, s, job, invert, doc)))
  {
    assert ActivityOf(s.w.pc) == Busy(false);
    match cfg.render(doc, job.pageIndex, job.targetWidth, job.targetHeight, job.rotation) {
      case None => ProduceWorks(s, s, Error(job.documentId), CriticalRoute, Some(job));
      case Some(raw) => StaysBusy(s, s.(w := s.w.(pc := AfterRender(job, invert, doc, raw))));
    }
    hide Produce, Works, ViewOf, ActivityOf;
  }

  lemma AfterRenderWorks(cfg: Config, s: State, job: RenderJob, invert: bool, doc: Document, raw: Bitmap.RawBitmap)
    requires s.w.pc == AfterRender(job, invert, doc, raw)
    ensures Works(ViewOf(s), ViewOf(AfterRenderStep(cfg, s, job, invert, doc, raw)))
  {
    assert ActivityOf(s.w.pc) == Busy(false);
    if ShutdownSeen(s.l) {
      var s1 := Consume(s);
      StaysBusy(s, s1.(w := s1.w.(pc := FinishWait(job, false))));
    } else {
      var bitmap := Finished(raw, invert);
      var cache := Cache.Inserted(s.w.cache, cfg.budget, CacheKeyOf(job, invert), bitmap);
      ProduceBitmapWorks(s, s.(w := s.w.(cache := cache)), job, invert, doc, bitmap);
    }
    hide ProduceBitmap, Works, ViewOf, ActivityOf, Cache.Inserted, Finished;
  }

  lemma CommandWorks(cfg: Config, s: State, c: Command, call: Call, outcome: QueryOutcome)
    requires s.w.pc == Dispatch(c, call) && (outcome.Interrupted? ==> ShutdownSeen(s.l))
    ensures c.OpenDocument? ==> Works(ViewOf(s), ViewOf(OpenStep(cfg, s, c.id, c.source)))
    ensures c.CloseDocument? ==> Works(ViewOf(s), ViewOf(CloseStep(s, c.id)))
    ensures c.Shutdown? ==> Works(ViewOf(s), ViewOf(Stop(s, Commanded)))
    ensures c.RunQuery? ==> Works(ViewOf(s), ViewOf(QueryStep(s, c.query, c.id, outcome)))
  {
    hide Cache.WithoutDocument, PopDoc, PutDoc, Promoted, FindDoc, NextCommand;
    assert ActivityOf(s.w.pc) == Handling(c, call) && ActivityOf(Stopped(Commanded)) == Halted(Commanded);
    assert ActivityOf(Stopped(HandlerFailed)) == Halted(HandlerFailed);
    match c {
      case OpenDocument(id, source) =>
        match cfg.open(source) {
          case None => ProduceWorks(s, s, Error(id), CriticalRoute, None);
          case Some(doc) =>
            var w := s.w.(docs := PutDoc(s.w.docs, id, doc), content := s.w.content[id := doc]);
            ProduceWorks(s, s.(w := w), DocumentOpened(id), CriticalRoute, None);
        }
      case RunQuery(query, id) =>
        var s1 := s.(w := s.w.(docs := Promoted(s.w.docs, id)));
        ProduceWorks(s, s1, QueryResult(query, id), if IsText(query) then LossyRoute else CriticalRoute, None);
        ProduceWorks(s, s1, Error(id), CriticalRoute, None);
        NextWorks(s, s);
        NextWorks(s, s1);
      case CloseDocument(id) =>
        var cache := Cache.WithoutDocument(s.w.cache, id);
        NextWorks(s, s.(w := s.w.(docs := PopDoc(s.w.docs, id), cache := cache, content := s.w.content - {id})));
      case _ =>
    }
    hide Produce, ActivityOf;
  }

  lemma LoadWorks(cfg: Config, s: State, step: Step, t: State)
    requires Next(cfg, s, step, t) && (step.DoLoadGeneration? || step.DoLoadInvert?)
    ensures Works(ViewOf(s), ViewOf(t))
  {}

  lemma FinishAcquireWorks(cfg: Config, s: State, t: State)
    requires Next(cfg, s, DoFinishAcquire, t)
    ensures Works(ViewOf(s), ViewOf(t))
  {
    var (job, ok) := (s.w.pc.job, s.w.pc.ok);
    assert ActivityOf(s.w.pc) == Busy(!ok) && ActivityOf(t.w.pc) == Busy(!ok);
    StaysBusy(s, t);
    hide Works, ViewOf, ActivityOf;
  }

  lemma FinishRemoveWorks(s: State, t: State)
    requires s.w.pc.FinishLocked? && s.p.lock.Removing?
    requires var s1 := s.(p := s.p.(pending := s.p.pending - {KeyOf(s.w.pc.job)}, lock := Free));
             t == if s.w.pc.ok then NextCommand(s1) else Stop(s1, HandlerFailed)
    ensures Works(ViewOf(s), ViewOf(t))
  {
    var s1 := s.(p := s.p.(pending := s.p.pending - {KeyOf(s.w.pc.job)}, lock := Free));
    assert ActivityOf(s.w.pc) == Busy(!s.w.pc.ok) && ActivityOf(Stopped(HandlerFailed)) == Halted(HandlerFailed);
    if s.w.pc.ok { NextWorks(s, s1); }
    hide NextCommand, ActivityOf, KeyOf;
  }

  predicate WorkStep(step: Step) {
    || step.DoOpen? || step.DoClose? || step.DoShutdown? || step.DoQuery? || step.DoLoadGeneration?
    || step.DoLoadInvert? || step.DoLookUp? || step.DoRender? || step.DoAfterRender?
    || step.DoEmitCheck? || step.DoEmitSend? || step.DoEmitShutdown? || step.DoFinishAcquire? || step.DoFinishRemove?
  }

  lemma WorkStepMoves(cfg: Config, s: State, step: Step, t: State)
    requires Next(cfg, s, step, t) && WorkStep(step)
    ensures Works(ViewOf(s), ViewOf(t))
  {
    hide EmitCheckStep, EmitSendStep, AfterEmit, LookUpStep, RenderStep, AfterRenderStep, OpenStep, CloseStep,
      QueryStep, Stop, NextCommand;
    var pc := s.w.pc;
    match step {
      case DoEmitCheck => EmitWorks(s);
      case DoEmitSend => EmitWorks(s);
      case DoEmitShutdown => EmitWorks(s);
      case DoLookUp => LookUpWorks(s, pc.job, pc.invert);
      case DoRender => RenderWorks(cfg, s, pc.job, pc.invert, pc.document);
      case DoAfterRender => AfterRenderWorks(cfg, s, pc.job, pc.invert, pc.document, pc.raw);
      case DoLoadGeneration => LoadWorks(cfg, s, step, t);
      case DoLoadInvert => LoadWorks(cfg, s, step, t);
      case DoFinishAcquire => FinishAcquireWorks(cfg, s, t);
      case DoFinishRemove => FinishRemoveWorks(s, t);
      case _ => CommandStepMoves(cfg, s, step, t);
    }
    hide Works, ViewOf;
  }

  lemma CommandStepMoves(cfg: Config, s: State, step: Step, t: State)
    requires Next(cfg, s, step, t) && (step.DoOpen? || step.DoClose? || step.DoShutdown? || step.DoQuery?)
    ensures Works(ViewOf(s), ViewOf(t))
  {
    hide OpenStep, CloseStep, QueryStep, Stop, Works, ViewOf;
    CommandWorks(cfg, s, s.w.pc.command, s.w.pc.call, if step.DoQuery? then step.outcome else Answer);
  }

  lemma SendOtherPushes(s: State, c: Command)
    requires !s.l.schedulerDropped && !c.RenderPage?
    ensures Pushes(ViewOf(s), ViewOf(SendOtherStep(s, c)))
  {
    hide PushControl, PushVisible, PushLow, ActivityOf;
    assert !IsVisible(c);
  }

  lemma SendTryPushes(s: State, job: RenderJob)
    requires s.p.lock.Sending? && !s.l.schedulerDropped
    ensures Pushes(ViewOf(s), ViewOf(TrySend(s, job)))
  {
    hide PushControl, PushVisible, PushLow, ActivityOf;
    var c := RenderPage(job);
    assert !IsControl(c) && (IsVisible(c) <==> job.priority == Visible);
  }

  predicate CallerStep(step: Step) {
    || step.SendAcquire? || step.SendCheck? || step.SendInsert? || step.SendRelease?
    || step.BumpAcquire? || step.BumpAdd? || step.BumpRetain? || step.BumpRelease?
    || step.SetInvert? || step.SignalShutdown? || step.DropScheduler? || step.UiFirst? || step.UiThen?
  }

  lemma CallerStepMoves(cfg: Config, s: State, step: Step, t: State)
    requires Next(cfg, s, step, t) && CallerStep(step)
    ensures Aside(ViewOf(s), ViewOf(t))
  {
    hide ActivityOf, KeyOf;
  }

  /** A sender holds the scheduler. */
  predicate SenderAlive(v: View) {
    v.sending ==> !v.life.schedulerDropped
  }

  lemma StepMoves(cfg: Config, s: State, step: Step, t: State)
    requires Next(cfg, s, step, t) && SenderAlive(ViewOf(s))
    ensures Moves(ViewOf(s), ViewOf(t))
  {
    hide ViewOf, ReceiveStep, TrySend, SendOtherStep, Receives, Works, Aside, Pushes;
    if WorkStep(step) {
      WorkStepMoves(cfg, s, step, t);
    } else if CallerStep(step) {
      CallerStepMoves(cfg, s, step, t);
    } else {
      OtherStepMoves(cfg, s, step, t);
    }
    hide Next;
  }

  lemma OtherStepMoves(cfg: Config, s: State, step: Step, t: State)
    requires Next(cfg, s, step, t) && SenderAlive(ViewOf(s)) && !WorkStep(step) && !CallerStep(step)
    ensures Pushes(ViewOf(s), ViewOf(t)) || Receives(ViewOf(s), ViewOf(t))
  {
    assert ViewOf(s).sending == s.p.lock.Sending? && ViewOf(s).life == s.l;
    hide ViewOf, ReceiveStep, TrySend, SendOtherStep, Receives, Pushes;
    match step {
      case SendTry => SendTryPushes(s, s.p.lock.job);
      case DoReceive => ReceiveMoves(s);
      case SendOther(c) => SendOtherPushes(s, c);
      case _ =>
    }
  }

  // The invariants

  /** Nothing is lost, reordered or over capacity, and each queue holds its own kind of command. */
  ghost predicate InOrder(q: Queues) {
    && q.sentControl == q.gotControl + q.control && |q.control| <= CONTROL_CAPACITY
    && q.sentVisible == q.gotVisible + q.visible && |q.visible| <= VISIBLE_CAPACITY
    && q.sentLow == q.gotLow + q.low && |q.low| <= LOW_CAPACITY
    && (forall c :: c in q.sentControl ==> IsControl(c))
    && (forall c :: c in q.sentVisible ==> IsVisible(c))
    && (forall c :: c in q.sentLow ==> !IsControl(c) && !IsVisible(c))
  }

  lemma TakeInOrder(sent: seq<Command>, got: seq<Command>, queue: seq<Command>)
    requires sent == got + queue && queue != []
    ensures sent == (got + [queue[0]]) + queue[1..]
  {}

  lemma PushInOrder(sent: seq<Command>, got: seq<Command>, queue: seq<Command>, c: Command)
    requires sent == got + queue
    ensures sent + [c] == got + (queue + [c])
  {}

  lemma PushesInOrder(q: Queues, r: Queues, c: Command)
    requires InOrder(q)
    requires || (IsControl(c) && |q.control| < CONTROL_CAPACITY && r == PushControl(q, c))
             || (IsVisible(c) && |q.visible| < VISIBLE_CAPACITY && r == PushVisible(q, c))
             || (!IsControl(c) && !IsVisible(c) && |q.low| < LOW_CAPACITY && r == PushLow(q, c))
    ensures InOrder(r)
  {
    PushInOrder(q.sentControl, q.gotControl, q.control, c);
    PushInOrder(q.sentVisible, q.gotVisible, q.visible, c);
    PushInOrder(q.sentLow, q.gotLow, q.low, c);
    hide IsControl, IsVisible;
  }

  lemma TakesInOrder(q: Queues, lowWaiting: bool)
    requires InOrder(q)
    ensures q.control != [] ==> InOrder(TakeControl(q))
    ensures q.visible != [] ==> InOrder(TakeVisible(q, lowWaiting))
    ensures q.low != [] ==> InOrder(TakeLow(q))
    ensures InOrder(WaitAtCall(q))
  {
    if q.control != [] { TakeInOrder(q.sentControl, q.gotControl, q.control); }
    if q.visible != [] { TakeInOrder(q.sentVisible, q.gotVisible, q.visible); }
    if q.low != [] { TakeInOrder(q.sentLow, q.gotLow, q.low); }
    hide IsControl, IsVisible;
  }

  lemma InOrderKept(v: View, w: View)
    requires Moves(v, w) && InOrder(v.q)
    ensures InOrder(w.q)
  {
    TakesInOrder(v.q, v.activity.Receiving? && v.activity.call.lowWaiting);
    if Pushes(v, w) && w.q != v.q {
      var c :| || (IsControl(c) && |v.q.control| < CONTROL_CAPACITY && w.q == PushControl(v.q, c))
               || (IsVisible(c) && |v.q.visible| < VISIBLE_CAPACITY && w.q == PushVisible(v.q, c))
               || (!IsControl(c) && !IsVisible(c) && |v.q.low| < LOW_CAPACITY && w.q == PushLow(v.q, c));
      PushesInOrder(v.q, w.q, c);
    }
    hide InOrder, PushControl, PushVisible, PushLow, TakeControl, TakeVisible, TakeLow, WaitAtCall, IsControl,
      IsVisible;
  }

  /** A visible command only goes ahead of waiting low work while the burst lasts. */
  predicate NotStarved(v: View) {
    && v.q.lowWait <= v.budget && v.q.lowWait <= VISIBLE_BURST
    && (v.activity.Receiving? && v.activity.call.lowWaiting ==> v.q.low != [])
    && (v.activity.Receiving? && v.activity.stage.TryVisible? && v.activity.call.lowWaiting ==>
          v.budget < VISIBLE_BURST)
  }

  lemma NotStarvedKept(v: View, w: View)
    requires Moves(v, w) && NotStarved(v)
    ensures NotStarved(w)
  {}

  /** Past the first look at the control queue, all it held when the pass began has been taken. */
  predicate ControlFirst(v: View) {
    && (v.activity.Receiving? && !v.activity.stage.SeeShutdown? ==> v.activity.call.controlSeen <= |v.q.sentControl|)
    && (v.activity.Receiving? && !v.activity.stage.SeeShutdown? && !v.activity.stage.TryControl?
        ==> v.activity.call.controlSeen <= |v.q.gotControl|)
    && (v.activity.Handling? && !IsControl(v.activity.command) ==> v.activity.call.controlSeen <= |v.q.gotControl|)
  }

  lemma ControlFirstKept(v: View, w: View)
    requires Moves(v, w) && InOrder(v.q) && ControlFirst(v)
    ensures ControlFirst(w)
  {
    if v.q.control != [] { assert v.q.control[0] in v.q.sentControl; }
  }

  /** A queue found closed stays empty, and the worker stops for a reason. */
  predicate StopsForCause(v: View) {
    && SenderAlive(v)
    && (v.life.schedulerDropped || v.life.signal ==> v.life.shutdownEver)
    && (v.activity.Receiving? && !v.activity.call.controlOpen ==> v.life.schedulerDropped && v.q.control == [])
    && (v.activity.Receiving? && !v.activity.call.visibleOpen ==> v.life.schedulerDropped && v.q.visible == [])
    && (v.activity.Receiving? && !v.activity.call.lowOpen ==> v.life.schedulerDropped && v.q.low == [])
    && (v.activity.Handling? && v.activity.command.Shutdown? ==> Shutdown in v.q.gotControl)
    && (v.activity == Busy(true) ==> v.life.shutdownEver)
    && (v.activity.Halted? ==>
          match v.activity.reason
          case Commanded => Shutdown in v.q.gotControl
          case Drained =>
            && v.life.shutdownEver && v.q.control == [] && v.q.visible == [] && v.q.low == []
            && v.life.schedulerDropped
          case _ => v.life.shutdownEver)
  }

  lemma StopsForCauseKept(v: View, w: View)
    requires Moves(v, w) && InOrder(v.q) && StopsForCause(v)
    ensures StopsForCause(w)
  {
    hide Pushes, Works, Aside, Receives, InOrder, StopsForCause;
    if Receives(v, w) {
      ReceivesForCause(v, w);
    } else if Works(v, w) {
      WorksForCause(v, w);
    } else {
      AsideForCause(v, w);
    }
  }

  lemma ReceivesForCause(v: View, w: View)
    requires Receives(v, w) && InOrder(v.q) && StopsForCause(v)
    ensures StopsForCause(w)
  {
    if v.q.visible != [] { assert v.q.visible[0] in v.q.sentVisible; }
    if v.q.low != [] { assert v.q.low[0] in v.q.sentLow; }
  }

  lemma WorksForCause(v: View, w: View)
    requires Works(v, w) && StopsForCause(v)
    ensures StopsForCause(w)
  {}

  lemma AsideForCause(v: View, w: View)
    requires (Pushes(v, w) || Aside(v, w)) && StopsForCause(v)
    ensures StopsForCause(w)
  {}

  // Whole runs

  /** A shutdown is under way until the worker has stopped: the one signal is only taken out by a worker that stops. */
  predicate ShutdownUnderWay(v: View) {
    v.life.shutdownEver ==> ShutdownSeen(v.life) || v.activity == Busy(true) || v.activity.Halted?
  }

  lemma ShutdownUnderWayKept(v: View, w: View)
    requires Moves(v, w) && ShutdownUnderWay(v)
    ensures ShutdownUnderWay(w)
  {
    hide IsControl, IsVisible, PushControl, PushVisible, PushLow, TakeControl, TakeVisible, TakeLow, WaitAtCall;
  }

  ghost predicate Sound(v: View) {
    InOrder(v.q) && NotStarved(v) && ControlFirst(v) && StopsForCause(v) && ShutdownUnderWay(v)
  }

  lemma RunStarts(cfg: Config, run: seq<State>, steps: seq<Step>)
    requires IsRun(cfg, run, steps)
    ensures Sound(ViewOf(run[0]))
  {}

  lemma RunGoesOn(cfg: Config, run: seq<State>, steps: seq<Step>, i: nat)
    requires IsRun(cfg, run, steps) && i < |steps| && SenderAlive(ViewOf(run[i]))
    ensures |run| == |steps| + 1 && Moves(ViewOf(run[i]), ViewOf(run[i + 1]))
  {
    assert Next(cfg, run[i], steps[i], run[i + 1]);
    hide *;
    StepMoves(cfg, run[i], steps[i], run[i + 1]);
  }

  lemma {:induction false} SoundAlways(cfg: Config, run: seq<State>, steps: seq<Step>, i: nat)
    requires IsRun(cfg, run, steps) && i < |run|
    ensures Sound(ViewOf(run[i]))
  {
    hide IsRun, ViewOf, Moves, InOrder, NotStarved, ControlFirst, ShutdownUnderWay, SenderAlive;
    RunLength(cfg, run, steps);
    if i > 0 {
      var (v, w) := (ViewOf(run[i - 1]), ViewOf(run[i]));
      SoundAlways(cfg, run, steps, i - 1);
      RunGoesOn(cfg, run, steps, i - 1);
      hide StopsForCause;
      InOrderKept(v, w);
      NotStarvedKept(v, w);
      ControlFirstKept(v, w);
      StopsForCauseKept(v, w);
      ShutdownUnderWayKept(v, w);
    } else {
      RunStarts(cfg, run, steps);
    }
  }

  /** Each queue is received in the order of sending, without loss, and never holds more than its capacity. */
  lemma QueuesAreOrdered(cfg: Config, run: seq<State>, steps: seq<Step>, i: nat)
    requires IsRun(cfg, run, steps) && i < |run|
    ensures var q := run[i].q;
            && q.sentControl == q.gotControl + q.control && |q.control| <= CONTROL_CAPACITY
            && q.sentVisible == q.gotVisible + q.visible && |q.visible| <= VISIBLE_CAPACITY
            && q.sentLow == q.gotLow + q.low && |q.low| <= LOW_CAPACITY
  {
    SoundAlways(cfg, run, steps, i);
    hide IsRun, NotStarved, ControlFirst, StopsForCause;
  }

  /**
   * The worker stops only when shutdown was signalled or commanded; with all queues closed it stops with nothing
   * left unread.
   */
  lemma WorkerStopsForCause(cfg: Config, run: seq<State>, steps: seq<Step>, i: nat)
    requires IsRun(cfg, run, steps) && i < |run| && run[i].w.pc.Stopped?
    ensures run[i].l.shutdownEver || Shutdown in run[i].q.gotControl
    ensures var (q, pc) := (run[i].q, run[i].w.pc);
            pc.reason.Drained? ==>
              q.gotControl == q.sentControl && q.gotVisible == q.sentVisible && q.gotLow == q.sentLow
  {
    SoundAlways(cfg, run, steps, i);
    assert ActivityOf(run[i].w.pc) == Halted(run[i].w.pc.reason);
    hide IsRun, NotStarved, ControlFirst, ActivityOf;
  }

  /**
   * A shutdown is never swallowed: once signalled it is still to be seen, or the worker is about to stop or has
   * stopped.
   */
  lemma ShutdownIsNotSwallowed(cfg: Config, run: seq<State>, steps: seq<Step>, i: nat)
    requires IsRun(cfg, run, steps) && i < |run| && run[i].l.shutdownEver
    ensures var (pc, l) := (run[i].w.pc, run[i].l);
            ShutdownSeen(l) || pc.Stopped? || (pc.FinishWait? && !pc.ok) || (pc.FinishLocked? && !pc.ok)
  {
    SoundAlways(cfg, run, steps, i);
    assert ActivityOf(run[i].w.pc) == Busy(true) ==>
        (run[i].w.pc.FinishWait? || run[i].w.pc.FinishLocked?) && !run[i].w.pc.ok;
    assert ActivityOf(run[i].w.pc).Halted? ==> run[i].w.pc.Stopped?;
    hide IsRun, InOrder, NotStarved, ControlFirst, StopsForCause, ActivityOf;
  }

  // Low work that waits at the start of a call

  /** Low work waits, and the worker is not inside a call that began without it. */
  predicate LowWaits(v: View) {
    v.q.low != [] && (v.activity.Receiving? ==> v.activity.call.lowWaiting)
  }

  lemma WaitGrows(v: View, w: View)
    requires Moves(v, w) && LowWaits(v) && InOrder(v.q) && w.q.gotLow == v.q.gotLow
    ensures LowWaits(w)
    ensures |w.q.gotVisible| - |v.q.gotVisible| == w.q.lowWait - v.q.lowWait
  {
    hide IsControl, IsVisible;
  }

  lemma GotLowGrows(v: View, w: View)
    requires Moves(v, w)
    ensures |v.q.gotLow| <= |w.q.gotLow| && w.q.gotLow[..|v.q.gotLow|] == v.q.gotLow
    ensures |v.q.gotControl| <= |w.q.gotControl| && |v.q.sentControl| <= |w.q.sentControl|
  {
    hide IsControl, IsVisible;
  }

  lemma {:induction false} GotLowGrowsBetween(cfg: Config, run: seq<State>, steps: seq<Step>, i: nat, j: nat)
    requires IsRun(cfg, run, steps) && i <= j < |run|
    ensures |run[i].q.gotLow| <= |run[j].q.gotLow| && run[j].q.gotLow[..|run[i].q.gotLow|] == run[i].q.gotLow
  {
    hide IsRun, Moves;
    RunLength(cfg, run, steps);
    if i < j {
      GotLowGrowsBetween(cfg, run, steps, i, j - 1);
      SoundAlways(cfg, run, steps, j - 1);
      RunGoesOn(cfg, run, steps, j - 1);
      GotLowGrows(ViewOf(run[j - 1]), ViewOf(run[j]));
      hide ActivityOf, Sound;
    }
  }

  lemma {:induction false} WaitGrowsBetween(cfg: Config, run: seq<State>, steps: seq<Step>, i: nat, j: nat)
    requires IsRun(cfg, run, steps) && i <= j < |run|
    requires LowWaits(ViewOf(run[i])) && run[j].q.gotLow == run[i].q.gotLow
    ensures LowWaits(ViewOf(run[j]))
    ensures |run[j].q.gotVisible| - |run[i].q.gotVisible| == run[j].q.lowWait - run[i].q.lowWait
  {
    hide IsRun, Moves, ActivityOf;
    RunLength(cfg, run, steps);
    if i < j {
      var k := j - 1;
      GotLowGrowsBetween(cfg, run, steps, i, k);
      GotLowGrowsBetween(cfg, run, steps, k, j);
      SoundAlways(cfg, run, steps, k);
      assert run[k].q.gotLow == run[i].q.gotLow;
      WaitGrowsBetween(cfg, run, steps, i, k);
      RunGoesOn(cfg, run, steps, k);
      WaitGrows(ViewOf(run[k]), ViewOf(run[j]));
    }
  }

  /** A low command that waits at the start of a call lets at most eight visible commands go first. */
  lemma LowWaitsForEight(cfg: Config, run: seq<State>, steps: seq<Step>, i: nat, j: nat)
    requires IsRun(cfg, run, steps) && i <= j < |run|
    requires run[i].q.low != [] && (run[i].w.pc.Receive? ==> run[i].w.pc.call.lowWaiting)
    requires run[j].q.gotLow == run[i].q.gotLow
    ensures |run[j].q.gotVisible| <= |run[i].q.gotVisible| + VISIBLE_BURST
  {
    assert ActivityOf(run[i].w.pc).Receiving? ==>
             ActivityOf(run[i].w.pc).call == run[i].w.pc.call && run[i].w.pc.Receive?;
    SoundAlways(cfg, run, steps, i);
    SoundAlways(cfg, run, steps, j);
    hide ActivityOf, IsRun;
    WaitGrowsBetween(cfg, run, steps, i, j);
  }

  // Control commands

  /** In the calls since, every pass has seen at least `sent` control commands. */
  predicate SeenSince(v: View, sent: nat) {
    && sent <= |v.q.sentControl|
    && (v.activity.Receiving? ==> v.activity.stage.SeeShutdown? || sent <= v.activity.call.controlSeen)
    && (v.activity.Handling? ==> sent <= v.activity.call.controlSeen)
  }

  lemma SeenSinceKept(v: View, w: View, sent: nat)
    requires Moves(v, w) && SeenSince(v, sent) && (v.activity.Receiving? || v.activity.Handling?)
    ensures w.activity.Receiving? || w.activity.Handling? ==> SeenSince(w, sent)
  {
    hide IsControl, IsVisible;
  }

  lemma {:induction false} SeenSinceStart(cfg: Config, run: seq<State>, steps: seq<Step>, i: nat, j: nat)
    requires IsRun(cfg, run, steps) && i <= j < |run|
    requires run[i].w.pc.Receive? && run[i].w.pc.stage.SeeShutdown?
    requires forall k :: i <= k <= j ==> run[k].w.pc.Receive? || run[k].w.pc.Dispatch?
    ensures SeenSince(ViewOf(run[j]), |run[i].q.sentControl|)
  {
    hide IsRun, Moves, SenderAlive;
    RunLength(cfg, run, steps);
    assert ActivityOf(run[j].w.pc).Receiving? || ActivityOf(run[j].w.pc).Handling?;
    if i < j {
      assert ActivityOf(run[j - 1].w.pc).Receiving? || ActivityOf(run[j - 1].w.pc).Handling?;
      hide ActivityOf, SeenSince;
      SeenSinceStart(cfg, run, steps, i, j - 1);
      SoundAlways(cfg, run, steps, j - 1);
      RunGoesOn(cfg, run, steps, j - 1);
      SeenSinceKept(ViewOf(run[j - 1]), ViewOf(run[j]), |run[i].q.sentControl|);
    }
  }

  /** When a call hands out visible or low work, every control command sent before its pass began has been received. */
  lemma ControlGoesFirst(cfg: Config, run: seq<State>, steps: seq<Step>, i: nat, j: nat)
    requires IsRun(cfg, run, steps) && i <= j < |run|
    requires run[i].w.pc.Receive? && run[i].w.pc.stage.SeeShutdown?
    requires forall k :: i <= k <= j ==> run[k].w.pc.Receive? || run[k].w.pc.Dispatch?
    requires run[j].w.pc.Dispatch? && !IsControl(run[j].w.pc.command)
    ensures |run[i].q.sentControl| <= |run[j].q.gotControl|
  {
    SeenSinceStart(cfg, run, steps, i, j);
    SoundAlways(cfg, run, steps, j);
    assert ActivityOf(run[j].w.pc) == Handling(run[j].w.pc.command, run[j].w.pc.call);
    hide IsRun, ActivityOf, IsControl;
  }

  // What each queue holds

  /** Opens, closes and shutdowns take the control queue, visible pages the next one, everything else the last. */
  lemma EachQueueHoldsItsKind(cfg: Config, run: seq<State>, steps: seq<Step>, i: nat, c: Command)
    requires IsRun(cfg, run, steps) && i < |run|
    ensures c in run[i].q.sentControl ==> c.OpenDocument? || c.CloseDocument? || c.Shutdown?
    ensures c in run[i].q.sentVisible ==> c.RenderPage? && c.job.priority == Visible
    ensures c in run[i].q.sentLow ==> c.RunQuery? || (c.RenderPage? && c.job.priority != Visible)
  {
    SoundAlways(cfg, run, steps, i);
    hide IsRun, NotStarved, ControlFirst, StopsForCause, ShutdownUnderWay;
  }

  lemma SentGrows(v: View, w: View)
    requires Moves(v, w)
    ensures v.q.sentControl <= w.q.sentControl
  {
    hide IsControl, IsVisible;
  }

  lemma {:induction false} SentStays(cfg: Config, run: seq<State>, steps: seq<Step>, i: nat, j: nat)
    requires IsRun(cfg, run, steps) && i <= j < |run|
    ensures run[i].q.sentControl <= run[j].q.sentControl
  {
    hide *;
    RunLength(cfg, run, steps);
    if i < j {
      SentStays(cfg, run, steps, i, j - 1);
      SoundAlways(cfg, run, steps, j - 1);
      SoundHasSender(ViewOf(run[j - 1]));
      RunGoesOn(cfg, run, steps, j - 1);
      SentGrows(ViewOf(run[j - 1]), ViewOf(run[j]));
      SentOfView(run[j - 1]);
      SentOfView(run[j]);
    }
  }

  lemma SentOfView(s: State)
    ensures ViewOf(s).q == s.q
  {}

  lemma SoundHasSender(v: View)
    requires Sound(v)
    ensures SenderAlive(v)
  {
    hide InOrder, NotStarved, ControlFirst, ShutdownUnderWay;
  }

  lemma ControlIsSent(cfg: Config, s: State, t: State, c: Command)
    requires Next(cfg, s, SendOther(c), t) && (c.OpenDocument? || c.CloseDocument? || c.Shutdown?)
    requires |s.q.control| < CONTROL_CAPACITY && !s.w.pc.Stopped?
    ensures t.q.sentControl == s.q.sentControl + [c]
  {}

  /**
   * An open, a close or a shutdown waits behind no render and no query: when a pass that begins after it was
   * sent hands out one of these, it has been received.
   */
  lemma ControlOvertakes(cfg: Config, run: seq<State>, steps: seq<Step>, k: nat, i: nat, j: nat, c: Command)
    requires IsRun(cfg, run, steps) && |run| == |steps| + 1 && k < i <= j < |run|
    requires steps[k] == SendOther(c) && (c.OpenDocument? || c.CloseDocument? || c.Shutdown?)
    requires |run[k].q.control| < CONTROL_CAPACITY && !run[k].w.pc.Stopped?
    requires run[i].w.pc.Receive? && run[i].w.pc.stage.SeeShutdown?
    requires forall n :: i <= n <= j ==> run[n].w.pc.Receive? || run[n].w.pc.Dispatch?
    requires run[j].w.pc.Dispatch? && (run[j].w.pc.command.RenderPage? || run[j].w.pc.command.RunQuery?)
    ensures c in run[j].q.gotControl
  {
    assert !IsControl(run[j].w.pc.command);
    assert Next(cfg, run[k], steps[k], run[k + 1]);
    ControlIsSent(cfg, run[k], run[k + 1], c);
    hide *;
    SentStays(cfg, run, steps, k + 1, i);
    SentStays(cfg, run, steps, i, j);
    ControlGoesFirst(cfg, run, steps, i, j);
    QueuesAreOrdered(cfg, run, steps, j);
    var n := |run[k].q.sentControl|;
    assert run[j].q.sentControl[n] == c;
    assert run[j].q.gotControl[n] == c;
  }
}
