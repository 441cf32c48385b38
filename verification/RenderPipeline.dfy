// The render pipeline as a protocol: callers on any thread, one worker, three bounded command
// queues, a lock around the pending requests, a generation counter and two bounded event
// channels. Every operation another thread can fall between is a step of its own.

module RenderPipeline {
  import opened Wrappers
  import opened Limits
  import opened RenderTypes
  import opened Bitmap
  import Cache

  /** The contents of a document file. */
  type Document = nat
  /** A path together with a password. */
  type Source = nat

  /** PDFium and the byte budget of the cache. */
  datatype Config = Config(
    open: Source -> Option<Document>,
    render: (Document, PageIndex, nat, nat, Rotation) -> Option<RawBitmap>,
    budget: nat)

  datatype Query = ExtractText | FetchTextGeometry | FetchOutline | FetchPageDimensions | SearchDocument

  datatype Command =
    | OpenDocument(id: DocumentId, source: Source)
    | RenderPage(job: RenderJob)
    | RunQuery(query: Query, id: DocumentId)
    | CloseDocument(id: DocumentId)
    | Shutdown

  predicate IsControl(c: Command) {
    c.OpenDocument? || c.CloseDocument? || c.Shutdown?
  }

  predicate IsVisible(c: Command) {
    c.RenderPage? && c.job.priority == Visible
  }

  datatype EventBody =
    | DocumentOpened(id: DocumentId)
    | PageRendered(job: RenderJob, bitmap: RawBitmap)
    | QueryResult(query: Query, id: DocumentId)
    | Error(id: DocumentId)

  /** An event and the number of events the worker produced before it. */
  datatype Event = Event(serial: nat, body: EventBody)

  predicate IsText(query: Query) {
    query.ExtractText? || query.FetchTextGeometry?
  }

  /** Thumbnails and extracted text may be dropped when the channel is full. */
  predicate Lossy(body: EventBody) {
    match body
    case PageRendered(job, _) => job.kind == ThumbnailKind
    case QueryResult(query, _) => IsText(query)
    case _ => false
  }

  const CONTROL_CAPACITY := 8
  const VISIBLE_CAPACITY := 32
  const LOW_CAPACITY := 128
  const CRITICAL_CAPACITY := 32
  const EVENT_CAPACITY := 128
  const VISIBLE_BURST := 8

  // The command queues

  /** The queues, what was ever sent to and received from each, and the wait of the low queue. */
  datatype Queues = Queues(
    control: seq<Command>, visible: seq<Command>, low: seq<Command>,
    sentControl: seq<Command>, sentVisible: seq<Command>, sentLow: seq<Command>,
    gotControl: seq<Command>, gotVisible: seq<Command>, gotLow: seq<Command>,
    lowWait: nat)

  function PushControl(q: Queues, c: Command): Queues {
    q.(control := q.control + [c], sentControl := q.sentControl + [c])
  }

  function PushVisible(q: Queues, c: Command): Queues {
    q.(visible := q.visible + [c], sentVisible := q.sentVisible + [c])
  }

  function PushLow(q: Queues, c: Command): Queues {
    q.(low := q.low + [c], sentLow := q.sentLow + [c])
  }

  function TakeControl(q: Queues): Queues
    requires q.control != []
  {
    q.(control := q.control[1..], gotControl := q.gotControl + [q.control[0]])
  }

  function TakeVisible(q: Queues, lowWaiting: bool): Queues
    requires q.visible != []
  {
    q.(visible := q.visible[1..], gotVisible := q.gotVisible + [q.visible[0]],
       lowWait := if lowWaiting then q.lowWait + 1 else q.lowWait)
  }

  function TakeLow(q: Queues): Queues
    requires q.low != []
  {
    q.(low := q.low[1..], gotLow := q.gotLow + [q.low[0]], lowWait := 0)
  }

  // The shared state of callers and worker

  datatype SendStage = Acquired | Checked | Sent | Settled
  datatype BumpStage = Entered | Added | Retained
  datatype Lock = Free | Sending(job: RenderJob, stage: SendStage) | Bumping(bump: BumpStage) | Removing

  datatype Shared = Shared(lock: Lock, pending: set<RequestKey>, generation: nat, invert: bool)

  // Delivery of events

  datatype UiStage = UiIdle | UiSecond(criticalGone: bool)

  /** The two channels, what was ever put into and taken from each, and the fate of all other events. */
  datatype Delivery = Delivery(
    critical: seq<Event>, events: seq<Event>,
    criticalLog: seq<Event>, eventsLog: seq<Event>,
    criticalGot: seq<Event>, eventsGot: seq<Event>,
    produced: seq<Event>, dropped: multiset<Event>, abandoned: multiset<Event>,
    ui: UiStage, reported: bool)

  // The worker

  datatype StopReason = Signalled | Commanded | Drained | HandlerFailed

  /** One call of `receive_command`: whether low work waited at its start, the control commands
      sent before the current pass, and the queues the pass found open. */
  datatype Call = Call(lowWaiting: bool, controlSeen: nat, controlOpen: bool, visibleOpen: bool, lowOpen: bool)

  datatype ReceiveStage = SeeShutdown | TryControl | TryLowFirst | TryVisible | TryLowSecond | CheckClosed
  datatype Route = PageRoute | LossyRoute | CriticalRoute
  datatype EmitStage = EmitCheck | EmitSend

  datatype Pc =
    | Receive(stage: ReceiveStage, call: Call)
    | Dispatch(command: Command, call: Call)
    | LoadInvert(job: RenderJob)
    | LookUp(job: RenderJob, invert: bool)
    | Rendering(job: RenderJob, invert: bool, document: Document)
    | AfterRender(job: RenderJob, invert: bool, document: Document, raw: RawBitmap)
    | Emit(emitStage: EmitStage, route: Route, event: Event, forJob: Option<RenderJob>)
    | FinishWait(job: RenderJob, ok: bool)
    | FinishLocked(job: RenderJob, ok: bool)
    | Stopped(reason: StopReason)

  /** What the worker knew when it produced a bitmap. */
  datatype Emission = Emission(job: RenderJob, invert: bool, document: Document, bitmap: RawBitmap)

  datatype Worker = Worker(
    pc: Pc, budget: nat,
    docs: seq<(DocumentId, Document)>,
    cache: seq<Cache.Entry>,
    // The documents opened and not closed since, and the bitmaps produced so far.
    content: map<DocumentId, Document>,
    emissions: seq<Emission>)

  datatype Life = Life(signal: bool, shutdownEver: bool, schedulerDropped: bool)

  datatype State = State(q: Queues, p: Shared, e: Delivery, w: Worker, l: Life)

  function NewCall(q: Queues): Pc {
    Receive(SeeShutdown, Call(q.low != [], 0, true, true, true))
  }

  /** A call that starts with an empty low queue starts the wait of the low queue anew. */
  function WaitAtCall(q: Queues): Queues {
    if q.low == [] then q.(lowWait := 0) else q
  }

  /** The worker goes on to its next command. */
  function NextCommand(s: State): State {
    var q := WaitAtCall(s.q);
    s.(q := q, w := s.w.(pc := NewCall(q)))
  }

  function Stop(s: State, reason: StopReason): State {
    s.(w := s.w.(pc := Stopped(reason)))
  }

  /** A shutdown signal is in its channel, or the sender of that channel is gone. */
  predicate ShutdownSeen(l: Life) {
    l.signal || l.schedulerDropped
  }

  function Consume(s: State): State {
    s.(l := s.l.(signal := false))
  }

  function Initial(): State {
    State(
      Queues([], [], [], [], [], [], [], [], [], 0),
      Shared(Free, {}, 1, false),
      Delivery([], [], [], [], [], [], [], multiset{}, multiset{}, UiIdle, false),
      Worker(Receive(SeeShutdown, Call(false, 0, true, true, true)), 0, [], [], map[], []),
      Life(false, false, false))
  }

  // Documents, least recently used last

  function FindDoc(docs: seq<(DocumentId, Document)>, id: DocumentId): (at: nat)
    ensures at <= |docs|
    ensures at < |docs| ==> docs[at].0 == id
    ensures forall i :: 0 <= i < at ==> docs[i].0 != id
  {
    if docs == [] then 0 else if docs[0].0 == id then 0 else 1 + FindDoc(docs[1..], id)
  }

  function PopDoc(docs: seq<(DocumentId, Document)>, id: DocumentId): seq<(DocumentId, Document)> {
    var at := FindDoc(docs, id);
    if at < |docs| then docs[..at] + docs[at + 1..] else docs
  }

  /** A look at a document makes it the most recently used. */
  function Promoted(docs: seq<(DocumentId, Document)>, id: DocumentId): seq<(DocumentId, Document)> {
    var at := FindDoc(docs, id);
    if at < |docs| then [docs[at]] + PopDoc(docs, id) else docs
  }

  function PutDoc(docs: seq<(DocumentId, Document)>, id: DocumentId, doc: Document): seq<(DocumentId, Document)> {
    var rest := PopDoc(docs, id);
    [(id, doc)] + if |rest| >= MAX_OPEN_TABS then rest[..MAX_OPEN_TABS - 1] else rest
  }

  // Producing events

  function Produce(s: State, body: EventBody, route: Route, forJob: Option<RenderJob>): State {
    var event := Event(|s.e.produced|, body);
    s.(e := s.e.(produced := s.e.produced + [event]), w := s.w.(pc := Emit(EmitCheck, route, event, forJob)))
  }

  /** `emit_rendered`: a page goes to the event channel first, a thumbnail only there. */
  function ProduceBitmap(s: State, job: RenderJob, invert: bool, document: Document, bitmap: RawBitmap): State {
    var s1 := s.(w := s.w.(emissions := s.w.emissions + [Emission(job, invert, document, bitmap)]));
    Produce(s1, PageRendered(job, bitmap), if job.kind == Page then PageRoute else LossyRoute, Some(job))
  }

  /** The worker continues after an event was delivered, dropped or given up. */
  function AfterEmit(s: State, forJob: Option<RenderJob>, ok: bool): State {
    match forJob
    case Some(job) => s.(w := s.w.(pc := FinishWait(job, ok)))
    case None => if ok then NextCommand(s) else Stop(s, HandlerFailed)
  }

  function PutCritical(e: Delivery, event: Event): Delivery {
    e.(critical := e.critical + [event], criticalLog := e.criticalLog + [event])
  }

  function PutEvent(e: Delivery, event: Event): Delivery {
    e.(events := e.events + [event], eventsLog := e.eventsLog + [event])
  }

  function Abandon(s: State, event: Event): State {
    s.(e := s.e.(abandoned := s.e.abandoned + multiset{event}))
  }

  // The steps

  /** How a query goes: its generation is over before it begins or while it runs, or it is answered,
      fails, or a search notices the shutdown. */
  datatype QueryOutcome = StaleAtStart | StaleLater | Answer | Failure | Interrupted

  datatype Step =
    // callers
    | SendAcquire(job: RenderJob)
    | SendCheck
    | SendTry
    | SendInsert
    | SendRelease
    | SendOther(command: Command)
    | BumpAcquire
    | BumpAdd
    | BumpRetain
    | BumpRelease
    | SetInvert(value: bool)
    | SignalShutdown
    | DropScheduler
    | UiFirst
    | UiThen
    // worker
    | DoReceive
    | DoOpen
    | DoClose
    | DoShutdown
    | DoQuery(outcome: QueryOutcome)
    | DoLoadGeneration
    | DoLoadInvert
    | DoLookUp
    | DoRender
    | DoAfterRender
    | DoEmitCheck
    | DoEmitSend
    | DoEmitShutdown
    | DoFinishAcquire
    | DoFinishRemove

  /** One stage of `receive_command`. */
  function ReceiveStep(s: State): State
    requires s.w.pc.Receive?
  {
    var (q, w, call, open) := (s.q, s.w, s.w.pc.call, !s.l.schedulerDropped);
    match w.pc.stage
    case SeeShutdown =>
      if ShutdownSeen(s.l) then Stop(Consume(s), Signalled)
      else s.(w := w.(pc := Receive(TryControl, call.(controlSeen := |q.sentControl|, lowOpen := true))))
    case TryControl =>
      if q.control != [] then s.(q := TakeControl(q), w := w.(pc := Dispatch(q.control[0], call)))
      else
        var next := if w.budget >= VISIBLE_BURST then TryLowFirst else TryVisible;
        s.(w := w.(pc := Receive(next, call.(controlOpen := open))))
    case TryLowFirst =>
      if q.low != [] then s.(q := TakeLow(q), w := w.(pc := Dispatch(q.low[0], call), budget := 0))
      else s.(w := w.(pc := Receive(TryVisible, call.(lowOpen := open))))
    case TryVisible =>
      if q.visible != []
      then s.(q := TakeVisible(q, call.lowWaiting), w := w.(pc := Dispatch(q.visible[0], call), budget := w.budget + 1))
      else
        var next := if w.budget < VISIBLE_BURST then TryLowSecond else CheckClosed;
        s.(w := w.(pc := Receive(next, call.(visibleOpen := open))))
    case TryLowSecond =>
      if q.low != [] then s.(q := TakeLow(q), w := w.(pc := Dispatch(q.low[0], call), budget := 0))
      else s.(w := w.(pc := Receive(CheckClosed, call.(lowOpen := open))))
    case CheckClosed =>
      if !call.controlOpen && !call.visibleOpen && !call.lowOpen then Stop(s, Drained)
      else s.(w := w.(pc := Receive(SeeShutdown, call)))
  }

  /** `send_command` for a render request, after the duplicate check. */
  function TrySend(s: State, job: RenderJob): State {
    var full := if job.priority == Visible then |s.q.visible| >= VISIBLE_CAPACITY else |s.q.low| >= LOW_CAPACITY;
    if full || s.w.pc.Stopped? then s.(p := s.p.(lock := Sending(job, Settled)))
    else
      s.(q := if job.priority == Visible then PushVisible(s.q, RenderPage(job)) else PushLow(s.q, RenderPage(job)),
         p := s.p.(lock := Sending(job, Sent)))
  }

  function SendOtherStep(s: State, c: Command): State {
    if s.w.pc.Stopped? then s
    else if IsControl(c) then if |s.q.control| < CONTROL_CAPACITY then s.(q := PushControl(s.q, c)) else s
    else if |s.q.low| < LOW_CAPACITY then s.(q := PushLow(s.q, c)) else s
  }

  function OpenStep(cfg: Config, s: State, id: DocumentId, source: Source): State {
    match cfg.open(source)
    case None => Produce(s, Error(id), CriticalRoute, None)
    case Some(doc) =>
      var w := s.w.(docs := PutDoc(s.w.docs, id, doc), content := s.w.content[id := doc]);
      Produce(s.(w := w), DocumentOpened(id), CriticalRoute, None)
  }

  function CloseStep(s: State, id: DocumentId): State {
    var cache := Cache.WithoutDocument(s.w.cache, id);
    NextCommand(s.(w := s.w.(docs := PopDoc(s.w.docs, id), cache := cache, content := s.w.content - {id})))
  }

  function QueryStep(s: State, query: Query, id: DocumentId, outcome: QueryOutcome): State {
    if outcome.StaleAtStart? || FindDoc(s.w.docs, id) == |s.w.docs| then NextCommand(s)
    else
      var s1 := s.(w := s.w.(docs := Promoted(s.w.docs, id)));
      match outcome
      case Answer => Produce(s1, QueryResult(query, id), if IsText(query) then LossyRoute else CriticalRoute, None)
      case Failure => Produce(s1, Error(id), CriticalRoute, None)
      case Interrupted => Stop(Consume(s1), HandlerFailed)
      case _ => NextCommand(s1)
  }

  /** The worker looks for a cached bitmap, then for the document. */
  function LookUpStep(s: State, job: RenderJob, invert: bool): State {
    var key := CacheKeyOf(job, invert);
    var at := Cache.Find(s.w.cache, key);
    var known := job.documentId in s.w.content;
    var doc := if known then s.w.content[job.documentId] else 0;
    if at < |s.w.cache| then
      var hit := s.w.cache[at].bitmap;
      ProduceBitmap(s.(w := s.w.(cache := Cache.Touched(s.w.cache, key))), job, invert, doc, hit)
    else
      match Cache.LargerCompatible(s.w.cache, job.documentId, job.pageIndex, job.rotation, invert, job.targetWidth,
        job.targetHeight)
      case Some(larger) => ProduceBitmap(s, job, invert, doc, larger)
      case None =>
        var d := FindDoc(s.w.docs, job.documentId);
        if d == |s.w.docs| then s.(w := s.w.(pc := FinishWait(job, true)))
        else
          var entry := s.w.docs[d];
          s.(w := s.w.(docs := Promoted(s.w.docs, job.documentId), pc := Rendering(job, invert, entry.1)))
  }

  function RenderStep(cfg: Config, s: State, job: RenderJob, invert: bool, doc: Document): State {
    match cfg.render(doc, job.pageIndex, job.targetWidth, job.targetHeight, job.rotation)
    case None => Produce(s, Error(job.documentId), CriticalRoute, Some(job))
    case Some(raw) => s.(w := s.w.(pc := AfterRender(job, invert, doc, raw)))
  }

  function Finished(raw: RawBitmap, invert: bool): RawBitmap {
    if invert then InvertedBitmap(raw) else raw
  }

  function AfterRenderStep(cfg: Config, s: State, job: RenderJob, invert: bool, doc: Document, raw: RawBitmap): State {
    if ShutdownSeen(s.l) then var s1 := Consume(s); s1.(w := s1.w.(pc := FinishWait(job, false)))
    else
      var bitmap := Finished(raw, invert);
      var cache := Cache.Inserted(s.w.cache, cfg.budget, CacheKeyOf(job, invert), bitmap);
      ProduceBitmap(s.(w := s.w.(cache := cache)), job, invert, doc, bitmap)
  }

  function EmitCheckStep(s: State): State
    requires s.w.pc.Emit?
  {
    var pc := s.w.pc;
    if ShutdownSeen(s.l) then AfterEmit(Abandon(Consume(s), pc.event), pc.forJob, false)
    else s.(w := s.w.(pc := pc.(emitStage := EmitSend)))
  }

  /** The send itself; a full event channel sends a page to the critical channel and drops a thumbnail or text. */
  function EmitSendStep(s: State): State
    requires s.w.pc.Emit?
  {
    var pc := s.w.pc;
    if s.l.schedulerDropped then AfterEmit(Abandon(s, pc.event), pc.forJob, false)
    else
      match pc.route
      case CriticalRoute => AfterEmit(s.(e := PutCritical(s.e, pc.event)), pc.forJob, true)
      case PageRoute =>
        if |s.e.events| < EVENT_CAPACITY then AfterEmit(s.(e := PutEvent(s.e, pc.event)), pc.forJob, true)
        else s.(w := s.w.(pc := Emit(EmitCheck, CriticalRoute, pc.event, pc.forJob)))
      case LossyRoute =>
        if |s.e.events| < EVENT_CAPACITY then AfterEmit(s.(e := PutEvent(s.e, pc.event)), pc.forJob, true)
        else AfterEmit(s.(e := s.e.(dropped := s.e.dropped + multiset{pc.event})), pc.forJob, true)
  }

  function UiFirstStep(s: State): State {
    if s.e.critical != []
    then s.(e := s.e.(critical := s.e.critical[1..], criticalGot := s.e.criticalGot + [s.e.critical[0]]))
    else s.(e := s.e.(ui := UiSecond(s.w.pc.Stopped?)))
  }

  /** `WorkerStopped` is reported when both channels are empty and disconnected. */
  function UiThenStep(s: State): State
    requires s.e.ui.UiSecond?
  {
    if s.e.events != []
    then s.(e := s.e.(events := s.e.events[1..], eventsGot := s.e.eventsGot + [s.e.events[0]], ui := UiIdle))
    else s.(e := s.e.(ui := UiIdle, reported := s.e.reported || (s.e.ui.criticalGone && s.w.pc.Stopped?)))
  }

  /** `step` takes `s` to `t`. */
  predicate Next(cfg: Config, s: State, step: Step, t: State) {
    match step
    case SendAcquire(job) =>
      && !s.l.schedulerDropped && s.p.lock.Free?
      && t == s.(p := s.p.(lock := Sending(job, Acquired)))
    case SendCheck =>
      && s.p.lock.Sending? && s.p.lock.stage.Acquired?
      && var next := if KeyOf(s.p.lock.job) in s.p.pending then Settled else Checked;
         t == s.(p := s.p.(lock := Sending(s.p.lock.job, next)))
    case SendTry => s.p.lock.Sending? && s.p.lock.stage.Checked? && t == TrySend(s, s.p.lock.job)
    case SendInsert =>
      && s.p.lock.Sending? && s.p.lock.stage.Sent?
      && t == s.(p := s.p.(pending := s.p.pending + {KeyOf(s.p.lock.job)}, lock := Sending(s.p.lock.job, Settled)))
    case SendRelease => s.p.lock.Sending? && s.p.lock.stage.Settled? && t == s.(p := s.p.(lock := Free))
    case SendOther(c) => !s.l.schedulerDropped && !c.RenderPage? && t == SendOtherStep(s, c)
    case BumpAcquire => !s.l.schedulerDropped && s.p.lock.Free? && t == s.(p := s.p.(lock := Bumping(Entered)))
    case BumpAdd =>
      && s.p.lock == Bumping(Entered)
      && t == s.(p := s.p.(generation := s.p.generation + 1, lock := Bumping(Added)))
    case BumpRetain =>
      && s.p.lock == Bumping(Added)
      && t == s.(p := s.p.(pending := (set k | k in s.p.pending && k.generation == s.p.generation),
           lock := Bumping(Retained)))
    case BumpRelease => s.p.lock == Bumping(Retained) && t == s.(p := s.p.(lock := Free))
    case SetInvert(value) => !s.l.schedulerDropped && t == s.(p := s.p.(invert := value))
    case SignalShutdown => !s.l.schedulerDropped && t == s.(l := s.l.(signal := true, shutdownEver := true))
    case DropScheduler =>
      && s.l.shutdownEver && s.p.lock.Free? && s.e.ui.UiIdle?
      && t == s.(l := s.l.(schedulerDropped := true))
    case UiFirst => !s.l.schedulerDropped && s.e.ui.UiIdle? && t == UiFirstStep(s)
    case UiThen => !s.l.schedulerDropped && s.e.ui.UiSecond? && t == UiThenStep(s)
    case DoReceive => s.w.pc.Receive? && t == ReceiveStep(s)
    case DoOpen =>
      && s.w.pc.Dispatch? && s.w.pc.command.OpenDocument?
      && t == OpenStep(cfg, s, s.w.pc.command.id, s.w.pc.command.source)
    case DoClose => s.w.pc.Dispatch? && s.w.pc.command.CloseDocument? && t == CloseStep(s, s.w.pc.command.id)
    case DoShutdown => s.w.pc.Dispatch? && s.w.pc.command.Shutdown? && t == Stop(s, Commanded)
    case DoQuery(outcome) =>
      && s.w.pc.Dispatch? && s.w.pc.command.RunQuery?
      && (outcome.StaleAtStart? ==> IsText(s.w.pc.command.query))
      && (outcome.StaleLater? ==> s.w.pc.command.query.SearchDocument?)
      && (outcome.Interrupted? ==> s.w.pc.command.query.SearchDocument? && ShutdownSeen(s.l))
      && t == QueryStep(s, s.w.pc.command.query, s.w.pc.command.id, outcome)
    case DoLoadGeneration =>
      && s.w.pc.Dispatch? && s.w.pc.command.RenderPage?
      && var job := s.w.pc.command.job;
         t == s.(w := s.w.(pc := if job.generation != s.p.generation then FinishWait(job, true) else LoadInvert(job)))
    case DoLoadInvert => s.w.pc.LoadInvert? && t == s.(w := s.w.(pc := LookUp(s.w.pc.job, s.p.invert)))
    case DoLookUp => s.w.pc.LookUp? && t == LookUpStep(s, s.w.pc.job, s.w.pc.invert)
    case DoRender => s.w.pc.Rendering? && t == RenderStep(cfg, s, s.w.pc.job, s.w.pc.invert, s.w.pc.document)
    case DoAfterRender =>
      && s.w.pc.AfterRender?
      && t == AfterRenderStep(cfg, s, s.w.pc.job, s.w.pc.invert, s.w.pc.document, s.w.pc.raw)
    case DoEmitCheck => s.w.pc.Emit? && s.w.pc.emitStage.EmitCheck? && t == EmitCheckStep(s)
    case DoEmitSend =>
      && s.w.pc.Emit? && s.w.pc.emitStage.EmitSend?
      // A critical send waits for room.
      && (s.w.pc.route.CriticalRoute? && !s.l.schedulerDropped ==> |s.e.critical| < CRITICAL_CAPACITY)
      && t == EmitSendStep(s)
    case DoEmitShutdown =>
      && s.w.pc.Emit? && s.w.pc.emitStage.EmitSend? && s.w.pc.route.CriticalRoute? && ShutdownSeen(s.l)
      && t == AfterEmit(Abandon(Consume(s), s.w.pc.event), s.w.pc.forJob, false)
    case DoFinishAcquire =>
      && s.w.pc.FinishWait? && s.p.lock.Free?
      && t == s.(p := s.p.(lock := Removing), w := s.w.(pc := FinishLocked(s.w.pc.job, s.w.pc.ok)))
    case DoFinishRemove =>
      && s.w.pc.FinishLocked? && s.p.lock.Removing?
      && var s1 := s.(p := s.p.(pending := s.p.pending - {KeyOf(s.w.pc.job)}, lock := Free));
         t == if s.w.pc.ok then NextCommand(s1) else Stop(s1, HandlerFailed)
  }

  /** A run of the pipeline from its start. */
  ghost predicate IsRun(cfg: Config, run: seq<State>, steps: seq<Step>) {
    && |run| == |steps| + 1
    && run[0] == Initial()
    && forall i :: 0 <= i < |steps| ==> Next(cfg, run[i], steps[i], run[i + 1])
  }

  lemma RunLength(cfg: Config, run: seq<State>, steps: seq<Step>)
    requires IsRun(cfg, run, steps)
    ensures |run| == |steps| + 1
  {
    hide Next;
  }
}
