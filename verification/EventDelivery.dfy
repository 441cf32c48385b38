// What becomes of every event over every run: it is delivered once, only thumbnails and text are
// dropped, nothing else is given up before a shutdown, and the end of the worker is reported last.

module EventDelivery {
  import opened Wrappers
  import opened RenderTypes
  import opened RenderPipeline
  import Bitmap
  import Cache

  // The part of the state the events depend on

  /** The event the worker is about to send. */
  datatype Hand = Bare(halted: bool) | Holds(event: Event, route: Route)

  function HandOf(pc: Pc): Hand {
    match pc
    case Emit(_, route, event, _) => Holds(event, route)
    case Stopped(_) => Bare(true)
    case _ => Bare(false)
  }

  datatype View = View(e: Delivery, hand: Hand, life: Life)

  function ViewOf(s: State): View {
    View(s.e, HandOf(s.w.pc), s.l)
  }

  // The moves

  /** Dropping is for lossy events only, and the detour over the event channel for pages only. */
  predicate RouteFits(body: EventBody, route: Route) {
    && (route.LossyRoute? <==> Lossy(body))
    && (route.PageRoute? ==> body.PageRendered? && body.job.kind == Page)
  }

  predicate SameLife(v: View, w: View) {
    && w.life.shutdownEver == v.life.shutdownEver && w.life.schedulerDropped == v.life.schedulerDropped
    && (w.life.signal ==> v.life.signal)
  }

  /** The worker makes an event. */
  predicate Makes(v: View, w: View) {
    && v.hand == Bare(false) && w.hand.Holds? && SameLife(v, w)
    && w.hand.event.serial == |v.e.produced| && RouteFits(w.hand.event.body, w.hand.route)
    && w.e == v.e.(produced := v.e.produced + [w.hand.event])
  }

  /** The worker works without touching an event. */
  predicate WorksOn(v: View, w: View) {
    v.hand == Bare(false) && w.hand.Bare? && SameLife(v, w) && w.e == v.e
  }

  /** The worker keeps its event; a full event channel sends a page to the critical channel. */
  predicate Retries(v: View, w: View) {
    && v.hand.Holds? && w.hand.Holds? && SameLife(v, w) && w.e == v.e && w.hand.event == v.hand.event
    && (w.hand.route == v.hand.route || (v.hand.route.PageRoute? && w.hand.route.CriticalRoute?
         && |v.e.events| >= EVENT_CAPACITY))
  }

  /** The worker parts with its event. */
  predicate Parts(v: View, w: View) {
    && v.hand.Holds? && w.hand.Bare? && SameLife(v, w)
    && var (event, route) := (v.hand.event, v.hand.route);
       || (w.e == PutCritical(v.e, event) && route.CriticalRoute? && |v.e.critical| < CRITICAL_CAPACITY)
       || (w.e == PutEvent(v.e, event) && !route.CriticalRoute? && |v.e.events| < EVENT_CAPACITY)
       || (w.e == v.e.(dropped := v.e.dropped + multiset{event}) && route.LossyRoute? && |v.e.events| >= EVENT_CAPACITY)
       || (w.e == v.e.(abandoned := v.e.abandoned + multiset{event}) && ShutdownSeen(v.life))
  }

  /** The caller polls for an event. */
  predicate Polls(v: View, w: View) {
    && w.hand == v.hand && w.life == v.life
    && var e := v.e;
       if e.ui.UiIdle? then
         if e.critical != [] then w.e == e.(critical := e.critical[1..], criticalGot := e.criticalGot + [e.critical[0]])
         else w.e == e.(ui := UiSecond(v.hand == Bare(true)))
       else if e.events != [] then
         w.e == e.(events := e.events[1..], eventsGot := e.eventsGot + [e.events[0]], ui := UiIdle)
       else w.e == e.(ui := UiIdle, reported := e.reported || (e.ui.criticalGone && v.hand == Bare(true)))
  }

  /** A step that touches neither events nor worker. */
  predicate Aside(v: View, w: View) {
    && w.e == v.e && w.hand == v.hand
    && (w.life.signal ==> v.life.signal || w.life.shutdownEver)
    && (v.life.shutdownEver ==> w.life.shutdownEver)
    && (w.life.schedulerDropped ==> v.life.schedulerDropped || w.life.shutdownEver)
  }

  predicate Moves(v: View, w: View) {
    Makes(v, w) || WorksOn(v, w) || Retries(v, w) || Parts(v, w) || Polls(v, w) || Aside(v, w)
  }

  // Every step is a move

  lemma ReceiveWorksOn(s: State)
    requires s.w.pc.Receive?
    ensures WorksOn(ViewOf(s), ViewOf(ReceiveStep(s)))
  {
    hide TakeControl, TakeVisible, TakeLow;
  }

  lemma NextWorksOn(s: State, s1: State)
    requires HandOf(s.w.pc) == Bare(false) && s1.e == s.e && s1.l == s.l
    ensures WorksOn(ViewOf(s), ViewOf(NextCommand(s1)))
  {
    assert HandOf(NewCall(WaitAtCall(s1.q))) == Bare(false);
    hide HandOf, WaitAtCall;
  }

  lemma AfterEmitIsBare(s1: State, forJob: Option<RenderJob>, ok: bool)
    ensures var t := AfterEmit(s1, forJob, ok); HandOf(t.w.pc).Bare? && t.e == s1.e && t.l == s1.l
  {
    hide WaitAtCall;
  }

  lemma EmitCheckMoves(s: State)
    requires s.w.pc.Emit?
    ensures Retries(ViewOf(s), ViewOf(EmitCheckStep(s))) || Parts(ViewOf(s), ViewOf(EmitCheckStep(s)))
    ensures ShutdownSeen(s.l) ==> Parts(ViewOf(s),
              ViewOf(AfterEmit(Abandon(Consume(s), s.w.pc.event), s.w.pc.forJob, false)))
  {
    var pc := s.w.pc;
    AfterEmitIsBare(Abandon(Consume(s), pc.event), pc.forJob, false);
    assert HandOf(pc) == Holds(pc.event, pc.route) && HandOf(pc.(emitStage := EmitSend)) == HandOf(pc);
    hide AfterEmit, HandOf;
  }

  lemma EmitSendMoves(s: State)
    requires s.w.pc.Emit?
    requires s.w.pc.route.CriticalRoute? && !s.l.schedulerDropped ==> |s.e.critical| < CRITICAL_CAPACITY
    ensures Retries(ViewOf(s), ViewOf(EmitSendStep(s))) || Parts(ViewOf(s), ViewOf(EmitSendStep(s)))
  {
    var pc := s.w.pc;
    var (event, forJob) := (pc.event, pc.forJob);
    AfterEmitIsBare(Abandon(s, event), forJob, false);
    AfterEmitIsBare(s.(e := PutCritical(s.e, event)), forJob, true);
    AfterEmitIsBare(s.(e := PutEvent(s.e, event)), forJob, true);
    AfterEmitIsBare(s.(e := s.e.(dropped := s.e.dropped + multiset{event})), forJob, true);
    var detour := Emit(EmitCheck, CriticalRoute, event, forJob);
    assert HandOf(pc) == Holds(event, pc.route) && HandOf(detour) == Holds(event, CriticalRoute);
    hide AfterEmit, HandOf, PutCritical, PutEvent;
  }

  lemma ProduceMakes(s: State, s1: State, body: EventBody, route: Route, forJob: Option<RenderJob>)
    requires HandOf(s.w.pc) == Bare(false) && s1.e == s.e && s1.l == s.l && RouteFits(body, route)
    ensures Makes(ViewOf(s), ViewOf(Produce(s1, body, route, forJob)))
  {
    var event := Event(|s1.e.produced|, body);
    assert HandOf(Emit(EmitCheck, route, event, forJob)) == Holds(event, route);
    hide HandOf, RouteFits;
  }

  lemma ProduceBitmapMakes(s: State, s1: State, job: RenderJob, invert: bool, doc: Document, b: Bitmap.RawBitmap)
    requires HandOf(s.w.pc) == Bare(false) && s1.e == s.e && s1.l == s.l
    ensures Makes(ViewOf(s), ViewOf(ProduceBitmap(s1, job, invert, doc, b)))
  {
    var s2 := s1.(w := s1.w.(emissions := s1.w.emissions + [Emission(job, invert, doc, b)]));
    ProduceMakes(s, s2, PageRendered(job, b), if job.kind == Page then PageRoute else LossyRoute, Some(job));
    hide Produce, Makes, HandOf;
  }

  lemma LookUpMoves(s: State, job: RenderJob, invert: bool)
    requires HandOf(s.w.pc) == Bare(false)
    ensures Makes(ViewOf(s), ViewOf(LookUpStep(s, job, invert)))
              || WorksOn(ViewOf(s), ViewOf(LookUpStep(s, job, invert)))
  {
    var key := CacheKeyOf(job, invert);
    var cache := s.w.cache;
    var at := Cache.Find(cache, key);
    var doc := if job.documentId in s.w.content then s.w.content[job.documentId] else 0;
    var larger := Cache.LargerCompatible(cache, job.documentId, job.pageIndex, job.rotation, invert, job.targetWidth,
      job.targetHeight);
    assert HandOf(FinishWait(job, true)) == Bare(false);
    assert forall document :: HandOf(Rendering(job, invert, document)) == Bare(false);
    if at < |cache| {
      ProduceBitmapMakes(s, s.(w := s.w.(cache := Cache.Touched(cache, key))), job, invert, doc, cache[at].bitmap);
    } else if larger.Some? {
      ProduceBitmapMakes(s, s, job, invert, doc, larger.value);
    }
    hide ProduceBitmap, Makes, HandOf, Cache.Find, Cache.Touched, Cache.LargerCompatible, FindDoc, Promoted;
  }

  lemma RenderMoves(cfg: Config, s: State, job: RenderJob, invert: bool, doc: Document)
    requires HandOf(s.w.pc) == Bare(false)
    ensures var t := RenderStep(cfg, s, job, invert, doc); Makes(ViewOf(s), ViewOf(t)) || WorksOn(ViewOf(s), ViewOf(t))
  {
    ProduceMakes(s, s, Error(job.documentId), CriticalRoute, Some(job));
    assert forall raw :: HandOf(AfterRender(job, invert, doc, raw)) == Bare(false);
    hide Produce, Makes, HandOf;
  }

  lemma AfterRenderMoves(cfg: Config, s: State, job: RenderJob, invert: bool, doc: Document, raw: Bitmap.RawBitmap)
    requires HandOf(s.w.pc) == Bare(false)
    ensures var t := AfterRenderStep(cfg, s, job, invert, doc, raw);
            Makes(ViewOf(s), ViewOf(t)) || WorksOn(ViewOf(s), ViewOf(t))
  {
    var bitmap := Finished(raw, invert);
    var cache := Cache.Inserted(s.w.cache, cfg.budget, CacheKeyOf(job, invert), bitmap);
    ProduceBitmapMakes(s, s.(w := s.w.(cache := cache)), job, invert, doc, bitmap);
    assert HandOf(FinishWait(job, false)) == Bare(false);
    hide ProduceBitmap, Makes, HandOf, Cache.Inserted, Finished;
  }

  lemma CommandMoves(cfg: Config, s: State, c: Command, outcome: QueryOutcome)
    requires HandOf(s.w.pc) == Bare(false)
    ensures c.OpenDocument? ==> Makes(ViewOf(s), ViewOf(OpenStep(cfg, s, c.id, c.source)))
    ensures c.CloseDocument? ==> WorksOn(ViewOf(s), ViewOf(CloseStep(s, c.id)))
    ensures c.Shutdown? ==> WorksOn(ViewOf(s), ViewOf(Stop(s, Commanded)))
    ensures c.RunQuery? ==>
              var t := QueryStep(s, c.query, c.id, outcome);
              Makes(ViewOf(s), ViewOf(t)) || WorksOn(ViewOf(s), ViewOf(t))
  {
    hide Cache.WithoutDocument, PopDoc, PutDoc, Promoted, FindDoc, NextCommand;
    assert HandOf(Stopped(Commanded)) == Bare(true) && HandOf(Stopped(HandlerFailed)) == Bare(true);
    match c {
      case OpenDocument(id, source) =>
        match cfg.open(source) {
          case None => ProduceMakes(s, s, Error(id), CriticalRoute, None);
          case Some(doc) =>
            var w := s.w.(docs := PutDoc(s.w.docs, id, doc), content := s.w.content[id := doc]);
            ProduceMakes(s, s.(w := w), DocumentOpened(id), CriticalRoute, None);
        }
      case RunQuery(query, id) =>
        var s1 := s.(w := s.w.(docs := Promoted(s.w.docs, id)));
        ProduceMakes(s, s1, QueryResult(query, id), if IsText(query) then LossyRoute else CriticalRoute, None);
        ProduceMakes(s, s1, Error(id), CriticalRoute, None);
        NextWorksOn(s, s);
        NextWorksOn(s, s1);
      case CloseDocument(id) =>
        var cache := Cache.WithoutDocument(s.w.cache, id);
        NextWorksOn(s, s.(w := s.w.(docs := PopDoc(s.w.docs, id), cache := cache, content := s.w.content - {id})));
      case _ =>
    }
    hide Produce, HandOf;
  }

  lemma FinishMoves(s: State, t: State)
    requires s.w.pc.FinishLocked?
    requires var s1 := s.(p := s.p.(pending := s.p.pending - {KeyOf(s.w.pc.job)}, lock := Free));
             t == if s.w.pc.ok then NextCommand(s1) else Stop(s1, HandlerFailed)
    ensures WorksOn(ViewOf(s), ViewOf(t))
  {
    var s1 := s.(p := s.p.(pending := s.p.pending - {KeyOf(s.w.pc.job)}, lock := Free));
    assert HandOf(s.w.pc) == Bare(false) && HandOf(Stopped(HandlerFailed)) == Bare(true);
    if s.w.pc.ok { NextWorksOn(s, s1); }
    hide NextCommand, HandOf, KeyOf;
  }

  /** The steps that only move the worker along. */
  predicate LoadStep(step: Step) {
    step.DoLoadGeneration? || step.DoLoadInvert? || step.DoFinishAcquire?
  }

  lemma LoadWorksOn(cfg: Config, s: State, step: Step, t: State)
    requires Next(cfg, s, step, t) && LoadStep(step)
    ensures WorksOn(ViewOf(s), ViewOf(t))
  {}

  /** The steps of callers that leave the events alone. */
  predicate CallerStep(step: Step) {
    || step.SendAcquire? || step.SendCheck? || step.SendTry? || step.SendInsert? || step.SendRelease? || step.SendOther?
    || step.BumpAcquire? || step.BumpAdd? || step.BumpRetain? || step.BumpRelease?
    || step.SetInvert? || step.SignalShutdown? || step.DropScheduler?
  }

  lemma CallerStepMoves(cfg: Config, s: State, step: Step, t: State)
    requires Next(cfg, s, step, t) && CallerStep(step)
    ensures Aside(ViewOf(s), ViewOf(t))
  {
    hide HandOf, KeyOf;
  }

  lemma PollMoves(s: State)
    ensures s.e.ui.UiIdle? ==> Polls(ViewOf(s), ViewOf(UiFirstStep(s)))
    ensures s.e.ui.UiSecond? ==> Polls(ViewOf(s), ViewOf(UiThenStep(s)))
  {
    assert s.w.pc.Stopped? <==> HandOf(s.w.pc) == Bare(true);
    hide HandOf;
  }

  lemma StepMoves(cfg: Config, s: State, step: Step, t: State)
    requires Next(cfg, s, step, t)
    ensures Moves(ViewOf(s), ViewOf(t))
  {
    hide ReceiveStep, EmitCheckStep, EmitSendStep, AfterEmit, LookUpStep, RenderStep, AfterRenderStep, OpenStep,
      CloseStep,
      QueryStep, Stop, NextCommand, UiFirstStep, UiThenStep, ViewOf;
    if CallerStep(step) {
      CallerStepMoves(cfg, s, step, t);
    } else if LoadStep(step) {
      LoadWorksOn(cfg, s, step, t);
    } else if step.UiFirst? || step.UiThen? {
      PollMoves(s);
    } else {
      WorkerStepMoves(cfg, s, step, t);
    }
    hide Makes, WorksOn, Retries, Parts, Polls, Aside;
  }

  lemma WorkerStepMoves(cfg: Config, s: State, step: Step, t: State)
    requires Next(cfg, s, step, t) && !CallerStep(step) && !LoadStep(step) && !step.UiFirst? && !step.UiThen?
    ensures Moves(ViewOf(s), ViewOf(t))
  {
    hide ReceiveStep, EmitCheckStep, EmitSendStep, AfterEmit, LookUpStep, RenderStep, AfterRenderStep, OpenStep,
      CloseStep,
      QueryStep, Stop, NextCommand, ViewOf, Makes, WorksOn, Retries, Parts, Polls, Aside;
    var pc := s.w.pc;
    assert !pc.Emit? && !pc.Stopped? ==> HandOf(pc) == Bare(false);
    match step {
      case DoReceive => ReceiveWorksOn(s);
      case DoEmitCheck => EmitCheckMoves(s);
      case DoEmitSend => EmitSendMoves(s);
      case DoEmitShutdown => EmitCheckMoves(s);
      case DoLookUp => LookUpMoves(s, pc.job, pc.invert);
      case DoRender => RenderMoves(cfg, s, pc.job, pc.invert, pc.document);
      case DoAfterRender => AfterRenderMoves(cfg, s, pc.job, pc.invert, pc.document, pc.raw);
      case DoQuery(outcome) => CommandMoves(cfg, s, pc.command, outcome);
      case DoOpen => CommandMoves(cfg, s, pc.command, Answer);
      case DoClose => CommandMoves(cfg, s, pc.command, Answer);
      case DoShutdown => CommandMoves(cfg, s, pc.command, Answer);
      case DoFinishRemove => FinishMoves(s, t);
      case _ =>
    }
  }

  // The invariants

  /** Events in the order of their production. */
  predicate Ascending(events: seq<Event>) {
    forall i, j :: 0 <= i < j < |events| ==> events[i].serial < events[j].serial
  }

  predicate Before(events: seq<Event>, serial: nat) {
    forall i :: 0 <= i < |events| ==> events[i].serial < serial
  }

  /** The number of the event in hand, or of the next event. */
  function NextSerial(v: View): nat {
    if v.hand.Holds? then v.hand.event.serial else |v.e.produced|
  }

  /** Both channels are first in, first out, bounded, and hold events in the order of production. */
  predicate InOrder(v: View) {
    && v.e.criticalLog == v.e.criticalGot + v.e.critical && |v.e.critical| <= CRITICAL_CAPACITY
    && v.e.eventsLog == v.e.eventsGot + v.e.events && |v.e.events| <= EVENT_CAPACITY
    && (v.hand.Holds? ==> v.hand.event.serial == |v.e.produced| - 1)
    && Ascending(v.e.criticalLog) && Before(v.e.criticalLog, NextSerial(v))
    && Ascending(v.e.eventsLog) && Before(v.e.eventsLog, NextSerial(v))
  }

  lemma LogGrows(log: seq<Event>, event: Event)
    requires Ascending(log) && Before(log, event.serial)
    ensures Ascending(log + [event]) && Before(log + [event], event.serial + 1)
  {}

  lemma ChannelMoves(log: seq<Event>, got: seq<Event>, channel: seq<Event>)
    requires log == got + channel
    ensures channel != [] ==> log == (got + [channel[0]]) + channel[1..]
    ensures forall event :: log + [event] == got + (channel + [event])
  {}

  lemma PartsInOrder(v: View, w: View)
    requires Parts(v, w) && InOrder(v)
    ensures InOrder(w)
  {
    ChannelMoves(v.e.criticalLog, v.e.criticalGot, v.e.critical);
    ChannelMoves(v.e.eventsLog, v.e.eventsGot, v.e.events);
    LogGrows(v.e.criticalLog, v.hand.event);
    LogGrows(v.e.eventsLog, v.hand.event);
    BeforeLater(v.e.criticalLog, v.hand.event.serial);
    BeforeLater(v.e.eventsLog, v.hand.event.serial);
    hide Ascending, Before, ShutdownSeen;
  }

  lemma InOrderKept(v: View, w: View)
    requires Moves(v, w) && InOrder(v)
    ensures InOrder(w)
  {
    if Parts(v, w) {
      PartsInOrder(v, w);
      hide InOrder, Parts;
    } else {
      ChannelMoves(v.e.criticalLog, v.e.criticalGot, v.e.critical);
      ChannelMoves(v.e.eventsLog, v.e.eventsGot, v.e.events);
      hide Ascending, Before, ShutdownSeen, RouteFits, Parts;
    }
  }

  lemma BeforeLater(log: seq<Event>, serial: nat)
    requires Before(log, serial)
    ensures Before(log, serial + 1)
  {}

  function InHand(v: View): multiset<Event> {
    if v.hand.Holds? then multiset{v.hand.event} else multiset{}
  }

  /** The events in a channel or received, dropped or given up. */
  function Placed(e: Delivery): multiset<Event> {
    multiset(e.criticalLog) + multiset(e.eventsLog) + e.dropped + e.abandoned
  }

  /** Every event produced is in one place and only one: delivered, dropped, given up or in hand. */
  predicate Conserved(v: View) {
    multiset(v.e.produced) == Placed(v.e) + InHand(v)
  }

  lemma Appended(events: seq<Event>, event: Event)
    ensures multiset(events + [event]) == multiset(events) + multiset{event}
  {}

  lemma OneMore(a: multiset<Event>, b: multiset<Event>, c: multiset<Event>, d: multiset<Event>, x: multiset<Event>)
    ensures (a + x) + b + c + d == a + b + c + d + x
    ensures a + (b + x) + c + d == a + b + c + d + x
    ensures a + b + (c + x) + d == a + b + c + d + x
    ensures a + b + c + (d + x) == a + b + c + d + x
  {}

  lemma PartsPlaces(v: View, w: View)
    requires Parts(v, w)
    ensures Placed(w.e) == Placed(v.e) + multiset{v.hand.event} && w.e.produced == v.e.produced
  {
    var (e, event) := (v.e, v.hand.event);
    OneMore(multiset(e.criticalLog), multiset(e.eventsLog), e.dropped, e.abandoned, multiset{event});
    Appended(e.criticalLog, event);
    Appended(e.eventsLog, event);
    hide ShutdownSeen;
  }

  lemma MakesConserved(v: View, w: View)
    requires Makes(v, w) && Conserved(v)
    ensures Conserved(w)
  {
    Appended(v.e.produced, w.hand.event);
    SamePlaces(v.e, w.e);
    hide Placed, RouteFits, SameLife;
    assert InHand(v) == multiset{} && InHand(w) == multiset{w.hand.event};
  }

  lemma PartsConserved(v: View, w: View)
    requires Parts(v, w) && Conserved(v)
    ensures Conserved(w)
  {
    PartsPlaces(v, w);
    assert InHand(v) == multiset{v.hand.event} && InHand(w) == multiset{};
    hide Placed, Parts;
  }

  lemma RestConserved(v: View, w: View)
    requires (WorksOn(v, w) || Retries(v, w) || Polls(v, w) || Aside(v, w)) && Conserved(v)
    ensures Conserved(w)
  {
    SamePlaces(v.e, w.e);
    assert InHand(w) == InHand(v);
    assert w.e.produced == v.e.produced;
    hide Placed, WorksOn, Retries, Polls, Aside, InHand;
  }

  lemma ConservedKept(v: View, w: View)
    requires Moves(v, w) && Conserved(v)
    ensures Conserved(w)
  {
    hide Conserved, Makes, WorksOn, Retries, Parts, Polls, Aside;
    if Makes(v, w) {
      MakesConserved(v, w);
    } else if Parts(v, w) {
      PartsConserved(v, w);
    } else {
      RestConserved(v, w);
    }
  }

  lemma SamePlaces(e: Delivery, f: Delivery)
    requires f.criticalLog == e.criticalLog && f.eventsLog == e.eventsLog && f.dropped == e.dropped
    requires f.abandoned == e.abandoned
    ensures Placed(f) == Placed(e)
  {}

  predicate Numbered(v: View) {
    forall i :: 0 <= i < |v.e.produced| ==> v.e.produced[i].serial == i
  }

  /** Only lossy events are dropped, and before a shutdown none is given up. */
  ghost predicate Careful(v: View) {
    && (v.hand.Holds? && v.hand.route.LossyRoute? ==> Lossy(v.hand.event.body))
    && (forall event :: event in v.e.dropped ==> Lossy(event.body))
    && (v.life.signal || v.life.schedulerDropped ==> v.life.shutdownEver)
    && (!v.life.shutdownEver ==> v.e.abandoned == multiset{})
  }

  lemma CarefulKept(v: View, w: View)
    requires Moves(v, w) && Careful(v)
    ensures Careful(w)
  {
    hide Lossy;
  }

  lemma NumberedKept(v: View, w: View)
    requires Moves(v, w) && Numbered(v)
    ensures Numbered(w)
  {
    hide Lossy, RouteFits, ShutdownSeen;
  }

  /** Once the worker is gone and a channel was found empty, it stays empty. */
  predicate ReportedLast(v: View) {
    && (v.e.ui.UiSecond? && v.e.ui.criticalGone ==> v.hand == Bare(true) && v.e.critical == [])
    && (v.e.reported ==> v.hand == Bare(true) && v.e.critical == [] && v.e.events == [])
  }

  lemma ReportedLastKept(v: View, w: View)
    requires Moves(v, w) && ReportedLast(v)
    ensures ReportedLast(w)
  {
    hide Lossy, RouteFits, ShutdownSeen;
  }

  // Whole runs

  ghost predicate Sound(v: View) {
    InOrder(v) && Conserved(v) && Numbered(v) && Careful(v) && ReportedLast(v)
  }

  lemma RunStarts(cfg: Config, run: seq<State>, steps: seq<Step>)
    requires IsRun(cfg, run, steps)
    ensures Sound(ViewOf(run[0]))
  {}

  lemma RunGoesOn(cfg: Config, run: seq<State>, steps: seq<Step>, i: nat)
    requires IsRun(cfg, run, steps) && i < |steps|
    ensures |run| == |steps| + 1 && Moves(ViewOf(run[i]), ViewOf(run[i + 1]))
  {
    assert Next(cfg, run[i], steps[i], run[i + 1]);
    hide *;
    StepMoves(cfg, run[i], steps[i], run[i + 1]);
  }

  lemma {:induction false} SoundAlways(cfg: Config, run: seq<State>, steps: seq<Step>, i: nat)
    requires IsRun(cfg, run, steps) && i < |run|
    ensures Sound(ViewOf(run[i]))
  {
    hide IsRun, ViewOf, Moves, InOrder, Conserved, Numbered, Careful, ReportedLast;
    RunLength(cfg, run, steps);
    if i > 0 {
      var (v, w) := (ViewOf(run[i - 1]), ViewOf(run[i]));
      SoundAlways(cfg, run, steps, i - 1);
      RunGoesOn(cfg, run, steps, i - 1);
      InOrderKept(v, w);
      ConservedKept(v, w);
      NumberedKept(v, w);
      CarefulKept(v, w);
      ReportedLastKept(v, w);
    } else {
      RunStarts(cfg, run, steps);
    }
  }

  lemma {:induction false} NumberedOnce(events: seq<Event>, event: Event)
    requires forall i :: 0 <= i < |events| ==> events[i].serial == i
    requires event in events
    ensures multiset(events)[event] == 1
  {
    var rest := events[..|events| - 1];
    assert events == rest + [events[|events| - 1]];
    if event in rest {
      NumberedOnce(rest, event);
      var i :| 0 <= i < |rest| && rest[i] == event;
      assert events[i].serial == i;
    } else {
      assert event == events[|events| - 1] && multiset(rest)[event] == 0;
    }
  }

  /** How often an event was received or waits to be received. */
  function Arrivals(e: Delivery, event: Event): nat {
    multiset(e.criticalGot + e.critical)[event] + multiset(e.eventsGot + e.events)[event]
  }

  /**
   * Before a shutdown, every event produced that is no longer in hand was received or waits in a channel,
   * exactly once, unless it is a dropped thumbnail or text.
   */
  lemma DeliveredOnce(cfg: Config, run: seq<State>, steps: seq<Step>, i: nat, event: Event)
    requires IsRun(cfg, run, steps) && i < |run| && event in run[i].e.produced && !run[i].l.shutdownEver
    requires run[i].w.pc.Emit? ==> run[i].w.pc.event != event
    ensures Arrivals(run[i].e, event) == 1
              || (Arrivals(run[i].e, event) == 0 && Lossy(event.body) && run[i].e.dropped[event] == 1)
  {
    SoundAlways(cfg, run, steps, i);
    NumberedOnce(run[i].e.produced, event);
    var v := ViewOf(run[i]);
    assert v.hand.Holds? ==> v.hand.event == run[i].w.pc.event && run[i].w.pc.Emit?;
    assert InHand(v)[event] == 0;
    hide IsRun, HandOf, Ascending, Before, NextSerial, Lossy;
  }

  /** In every run no event arrives twice, and what arrives was produced. */
  lemma NeverTwice(cfg: Config, run: seq<State>, steps: seq<Step>, i: nat, event: Event)
    requires IsRun(cfg, run, steps) && i < |run|
    ensures Arrivals(run[i].e, event) <= 1
    ensures Arrivals(run[i].e, event) == 1 ==> event in run[i].e.produced
  {
    SoundAlways(cfg, run, steps, i);
    if event in run[i].e.produced { NumberedOnce(run[i].e.produced, event); }
    assert multiset(run[i].e.produced)[event] == 0 || event in run[i].e.produced;
    hide IsRun, HandOf, Ascending, Before, NextSerial, Lossy;
  }

  /** A page bitmap is never dropped. */
  lemma PagesAreNotDropped(cfg: Config, run: seq<State>, steps: seq<Step>, i: nat, event: Event)
    requires IsRun(cfg, run, steps) && i < |run| && event.body.PageRendered? && event.body.job.kind == Page
    ensures event !in run[i].e.dropped
  {
    SoundAlways(cfg, run, steps, i);
    hide IsRun, HandOf, InOrder, Conserved, Numbered;
  }

  /** What is dropped is a thumbnail, or the text or the text geometry of a page. */
  lemma OnlyThumbnailsAndTextAreDropped(cfg: Config, run: seq<State>, steps: seq<Step>, i: nat, event: Event)
    requires IsRun(cfg, run, steps) && i < |run| && event in run[i].e.dropped
    ensures || (event.body.PageRendered? && event.body.job.kind == ThumbnailKind)
            || (event.body.QueryResult? && (event.body.query.ExtractText? || event.body.query.FetchTextGeometry?))
  {
    SoundAlways(cfg, run, steps, i);
    hide IsRun, HandOf, InOrder, Conserved, Numbered;
  }

  /**
   * When the end of the worker is reported, every event sent has been received, in each channel in the order of
   * production.
   */
  lemma StoppedIsReportedLast(cfg: Config, run: seq<State>, steps: seq<Step>, i: nat)
    requires IsRun(cfg, run, steps) && i < |run| && run[i].e.reported
    ensures run[i].w.pc.Stopped?
    ensures run[i].e.criticalGot == run[i].e.criticalLog && run[i].e.eventsGot == run[i].e.eventsLog
    ensures Ascending(run[i].e.criticalGot) && Ascending(run[i].e.eventsGot)
  {
    SoundAlways(cfg, run, steps, i);
    assert HandOf(run[i].w.pc) == Bare(true) ==> run[i].w.pc.Stopped?;
    hide IsRun, HandOf, Ascending, Before, NextSerial;
  }
}
