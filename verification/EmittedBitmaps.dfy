// What the bitmaps shown by the pipeline are: over every run in which no document is opened on top of
// bitmaps that are wrong for it, each one is a render of the document its identifier names.

module EmittedBitmaps {
  import opened Wrappers
  import opened Limits
  import opened RenderTypes
  import opened RenderPipeline
  import opened Bitmap
  import Cache

  // What makes a bitmap right

  /** A direct render of the page at this size, inverted when `invert` says so. */
  predicate Shows(cfg: Config, doc: Document, page: PageIndex, w: nat, h: nat, rotation: Rotation, invert: bool,
      b: RawBitmap) {
    match cfg.render(doc, page, w, h, rotation)
    case None => false
    case Some(raw) =>
      if invert then b.width == raw.width && b.height == raw.height && IsInverse(raw.pixels, b.pixels) else b == raw
  }

  lemma FinishedShows(cfg: Config, doc: Document, page: PageIndex, w: nat, h: nat, rotation: Rotation, invert: bool,
      raw: RawBitmap)
    requires cfg.render(doc, page, w, h, rotation) == Some(raw)
    ensures Shows(cfg, doc, page, w, h, rotation, invert, Finished(raw, invert))
  {
    InvertedIsInverse(raw.pixels);
    hide IsInverse, Inverted;
  }

  /** A render of the page at the size asked for, or at another size with at least one side large enough. */
  ghost predicate RightFor(cfg: Config, doc: Document, page: PageIndex, tw: nat, th: nat, rotation: Rotation,
      invert: bool, b: RawBitmap) {
    || Shows(cfg, doc, page, tw, th, rotation, invert, b)
    || exists w, h :: Shows(cfg, doc, page, w, h, rotation, invert, b) && (b.width >= tw || b.height >= th)
  }

  /** A bitmap that is right for its job and the document its identifier named. */
  ghost predicate Right(cfg: Config, em: Emission) {
    var job := em.job;
    RightFor(cfg, em.document, job.pageIndex, job.targetWidth, job.targetHeight, job.rotation, em.invert, em.bitmap)
  }

  // The invariant

  /** A cached bitmap that would be right for the document. */
  ghost predicate EntryRight(cfg: Config, doc: Document, e: Cache.Entry) {
    var k := e.key;
    RightFor(cfg, doc, k.pageIndex, k.targetWidth, k.targetHeight, k.rotation, k.invertColors, e.bitmap)
  }

  ghost predicate EntrySound(cfg: Config, content: map<DocumentId, Document>, e: Cache.Entry) {
    e.key.documentId in content && EntryRight(cfg, content[e.key.documentId], e)
  }

  ghost predicate CacheSound(cfg: Config, content: map<DocumentId, Document>, cache: seq<Cache.Entry>) {
    Cache.Consistent(cache, cfg.budget) && forall e :: e in cache ==> EntrySound(cfg, content, e)
  }

  predicate DocsSound(content: map<DocumentId, Document>, docs: seq<(DocumentId, Document)>) {
    forall d :: d in docs ==> d.0 in content && content[d.0] == d.1
  }

  /** The document a render has been started on, and what it gave. */
  datatype Task =
    | NoTask
    | ToLookUp(job: RenderJob, invert: bool)
    | ToRender(job: RenderJob, invert: bool, document: Document)
    | ToShow(job: RenderJob, invert: bool, document: Document, raw: RawBitmap)

  function TaskOf(pc: Pc): Task {
    match pc
    case LookUp(job, invert) => ToLookUp(job, invert)
    case Rendering(job, invert, doc) => ToRender(job, invert, doc)
    case AfterRender(job, invert, doc, raw) => ToShow(job, invert, doc, raw)
    case _ => NoTask
  }

  /** The job of a task and the colour flag read for it. */
  predicate IsFor(task: Task, job: RenderJob, invert: bool) {
    !task.NoTask? && task.job == job && task.invert == invert
  }

  predicate TaskSound(cfg: Config, content: map<DocumentId, Document>, task: Task) {
    match task
    case NoTask => true
    case ToLookUp(_, _) => true
    case ToRender(job, _, doc) => job.documentId in content && content[job.documentId] == doc
    case ToShow(job, _, doc, raw) =>
      && job.documentId in content && content[job.documentId] == doc
      && cfg.render(doc, job.pageIndex, job.targetWidth, job.targetHeight, job.rotation) == Some(raw)
  }

  ghost predicate Sound(cfg: Config, s: State) {
    && CacheSound(cfg, s.w.content, s.w.cache)
    && DocsSound(s.w.content, s.w.docs) && OnceEach(s.w.docs)
    && TaskSound(cfg, s.w.content, TaskOf(s.w.pc))
  }

  // The bitmap events

  function Shown(em: Emission): EventBody {
    PageRendered(em.job, em.bitmap)
  }

  /** The bitmap events among all events, in order. */
  function Pictures(events: seq<Event>): seq<EventBody> {
    if events == [] then []
    else
      var last := events[|events| - 1].body;
      Pictures(events[..|events| - 1]) + if last.PageRendered? then [last] else []
  }

  function Bodies(ems: seq<Emission>): (bodies: seq<EventBody>)
    ensures |bodies| == |ems|
    ensures forall i :: 0 <= i < |ems| ==> bodies[i] == Shown(ems[i])
  {
    if ems == [] then [] else Bodies(ems[..|ems| - 1]) + [Shown(ems[|ems| - 1])]
  }

  lemma PicturesGrow(events: seq<Event>, event: Event)
    ensures Pictures(events + [event]) == Pictures(events) + if event.body.PageRendered? then [event.body] else []
  {
    assert (events + [event])[..|events|] == events;
  }

  // What a step does

  /** No document, cached bitmap, render or bitmap event changes, but a render may end. */
  predicate Quiet(s: State, t: State) {
    && t.w.content == s.w.content && t.w.docs == s.w.docs && t.w.cache == s.w.cache && t.w.emissions == s.w.emissions
    && (|| TaskOf(t.w.pc) == NoTask || TaskOf(t.w.pc) == TaskOf(s.w.pc)
        || (s.w.pc.LoadInvert? && TaskOf(t.w.pc) == ToLookUp(s.w.pc.job, s.p.invert)))
    && (t.e.produced == s.e.produced
        || (|t.e.produced| > 0 && t.e.produced[..|t.e.produced| - 1] == s.e.produced
            && !t.e.produced[|t.e.produced| - 1].body.PageRendered?))
  }

  /** The emission of a bitmap for a job on the document it names. */
  predicate Emits(s: State, t: State, em: Emission) {
    && t.w.emissions == s.w.emissions + [em]
    && t.e.produced == s.e.produced + [Event(|s.e.produced|, Shown(em))]
    && TaskOf(t.w.pc) == NoTask
    && t.w.content == s.w.content && em.job.documentId in s.w.content && em.document == s.w.content[em.job.documentId]
  }

  lemma ProduceIsQuiet(s: State, s1: State, body: EventBody, route: Route, forJob: Option<RenderJob>)
    requires s1.w == s.w && s1.e == s.e && !body.PageRendered?
    ensures Quiet(s, Produce(s1, body, route, forJob))
  {
    var event := Event(|s1.e.produced|, body);
    assert TaskOf(Emit(EmitCheck, route, event, forJob)) == NoTask;
    assert (s1.e.produced + [event])[..|s1.e.produced|] == s1.e.produced;
    hide TaskOf;
  }

  lemma ProduceBitmapEmits(s: State, s1: State, job: RenderJob, invert: bool, doc: Document, b: RawBitmap)
    requires s1.w.content == s.w.content && s1.w.emissions == s.w.emissions && s1.e == s.e
    requires job.documentId in s.w.content && doc == s.w.content[job.documentId]
    ensures var t := ProduceBitmap(s1, job, invert, doc, b);
            Emits(s, t, Emission(job, invert, doc, b)) && t.w.cache == s1.w.cache && t.w.docs == s1.w.docs
  {
    var event := Event(|s1.e.produced|, PageRendered(job, b));
    assert forall route :: TaskOf(Emit(EmitCheck, route, event, Some(job))) == NoTask;
    hide TaskOf;
  }

  lemma NextIsQuiet(s: State, s1: State)
    requires s1.w == s.w && s1.e == s.e
    ensures Quiet(s, NextCommand(s1))
  {
    assert TaskOf(NewCall(WaitAtCall(s1.q))) == NoTask;
    hide TaskOf, WaitAtCall;
  }

  lemma AfterEmitIsQuiet(s: State, s1: State, forJob: Option<RenderJob>, ok: bool)
    requires s1.w == s.w && s1.e.produced == s.e.produced
    ensures Quiet(s, AfterEmit(s1, forJob, ok))
  {
    assert TaskOf(NewCall(WaitAtCall(s1.q))) == NoTask && TaskOf(Stopped(HandlerFailed)) == NoTask;
    assert forall job :: TaskOf(FinishWait(job, ok)) == NoTask;
    hide TaskOf, WaitAtCall;
  }

  lemma EmitIsQuiet(s: State)
    requires s.w.pc.Emit?
    ensures Quiet(s, EmitCheckStep(s)) && Quiet(s, EmitSendStep(s))
    ensures Quiet(s, AfterEmit(Abandon(Consume(s), s.w.pc.event), s.w.pc.forJob, false))
  {
    var pc := s.w.pc;
    var (event, forJob) := (pc.event, pc.forJob);
    AfterEmitIsQuiet(s, Abandon(Consume(s), event), forJob, false);
    AfterEmitIsQuiet(s, Abandon(s, event), forJob, false);
    AfterEmitIsQuiet(s, s.(e := PutCritical(s.e, event)), forJob, true);
    AfterEmitIsQuiet(s, s.(e := PutEvent(s.e, event)), forJob, true);
    AfterEmitIsQuiet(s, s.(e := s.e.(dropped := s.e.dropped + multiset{event})), forJob, true);
    assert TaskOf(pc.(emitStage := EmitSend)) == NoTask;
    assert TaskOf(Emit(EmitCheck, CriticalRoute, event, forJob)) == NoTask;
    hide AfterEmit, PutCritical, PutEvent, TaskOf;
  }

  lemma ReceiveIsQuiet(s: State)
    requires s.w.pc.Receive?
    ensures Quiet(s, ReceiveStep(s))
  {
    hide TakeControl, TakeVisible, TakeLow;
  }

  lemma FinishIsQuiet(s: State, t: State)
    requires s.w.pc.FinishLocked?
    requires var s1 := s.(p := s.p.(pending := s.p.pending - {KeyOf(s.w.pc.job)}, lock := Free));
             t == if s.w.pc.ok then NextCommand(s1) else Stop(s1, HandlerFailed)
    ensures Quiet(s, t)
  {
    var s1 := s.(p := s.p.(pending := s.p.pending - {KeyOf(s.w.pc.job)}, lock := Free));
    NextIsQuiet(s, s1);
    assert TaskOf(Stopped(HandlerFailed)) == NoTask;
    hide NextCommand, TaskOf, KeyOf;
  }

  /** The steps that leave documents, cache and bitmap events alone. */
  predicate QuietStep(step: Step) {
    !step.DoOpen? && !step.DoClose? && !step.DoQuery? && !step.DoLookUp? && !step.DoRender? && !step.DoAfterRender?
  }

  predicate CallerStep(step: Step) {
    || step.SendAcquire? || step.SendCheck? || step.SendTry? || step.SendInsert? || step.SendRelease? || step.SendOther?
    || step.BumpAcquire? || step.BumpAdd? || step.BumpRetain? || step.BumpRelease?
    || step.SetInvert? || step.SignalShutdown? || step.DropScheduler? || step.UiFirst? || step.UiThen?
  }

  lemma CallerStepIsQuiet(cfg: Config, s: State, step: Step, t: State)
    requires Next(cfg, s, step, t) && CallerStep(step)
    ensures Quiet(s, t)
  {
    hide TaskOf, KeyOf;
  }

  predicate LoadStep(step: Step) {
    step.DoLoadGeneration? || step.DoLoadInvert? || step.DoFinishAcquire? || step.DoShutdown?
  }

  lemma LoadStepIsQuiet(cfg: Config, s: State, step: Step, t: State)
    requires Next(cfg, s, step, t) && LoadStep(step)
    ensures Quiet(s, t)
  {}

  lemma QuietSteps(cfg: Config, s: State, step: Step, t: State)
    requires Next(cfg, s, step, t) && QuietStep(step)
    ensures Quiet(s, t)
  {
    hide ReceiveStep, EmitCheckStep, EmitSendStep, AfterEmit, Stop, NextCommand, Quiet;
    if CallerStep(step) {
      CallerStepIsQuiet(cfg, s, step, t);
    } else if LoadStep(step) {
      LoadStepIsQuiet(cfg, s, step, t);
    } else {
      match step {
        case DoReceive => ReceiveIsQuiet(s);
        case DoEmitCheck => EmitIsQuiet(s);
        case DoEmitSend => EmitIsQuiet(s);
        case DoEmitShutdown => EmitIsQuiet(s);
        case DoFinishRemove => FinishIsQuiet(s, t);
        case _ =>
      }
    }
  }

  // Documents

  lemma PopDocKeeps(content: map<DocumentId, Document>, docs: seq<(DocumentId, Document)>, id: DocumentId)
    requires DocsSound(content, docs)
    ensures DocsSound(content, PopDoc(docs, id))
  {
    var at := FindDoc(docs, id);
    if at < |docs| {
      assert forall d :: d in PopDoc(docs, id) ==> d in docs[..at] || d in docs[at + 1..];
    }
  }

  /** A closed document is gone: identifiers occur once, so the first hit is the only one. */
  predicate OnceEach(docs: seq<(DocumentId, Document)>) {
    forall i, j :: 0 <= i < j < |docs| ==> docs[i].0 != docs[j].0
  }

  lemma PopDocRemoves(docs: seq<(DocumentId, Document)>, id: DocumentId)
    requires OnceEach(docs)
    ensures OnceEach(PopDoc(docs, id))
    ensures forall d :: d in PopDoc(docs, id) ==> d in docs && d.0 != id
  {
    var at := FindDoc(docs, id);
    var rest := PopDoc(docs, id);
    if at < |docs| {
      forall i | 0 <= i < |rest| ensures rest[i] == docs[if i < at then i else i + 1] {}
      forall d | d in rest ensures d in docs && d.0 != id {
        var i :| 0 <= i < |rest| && rest[i] == d;
        var j := if i < at then i else i + 1;
        assert docs[j] == d;
      }
    } else {
      forall d | d in rest ensures d.0 != id {
        var i :| 0 <= i < |docs| && docs[i] == d;
      }
    }
  }

  lemma FrontDoc(d: (DocumentId, Document), docs: seq<(DocumentId, Document)>)
    requires OnceEach(docs) && forall x :: x in docs ==> x.0 != d.0
    ensures OnceEach([d] + docs)
  {
    var all := [d] + docs;
    forall i, j | 0 <= i < j < |all| ensures all[i].0 != all[j].0 {
      assert all[j] == docs[j - 1] && docs[j - 1] in docs;
    }
  }

  lemma PromotedKeeps(content: map<DocumentId, Document>, docs: seq<(DocumentId, Document)>, id: DocumentId)
    requires DocsSound(content, docs) && OnceEach(docs)
    ensures DocsSound(content, Promoted(docs, id)) && OnceEach(Promoted(docs, id))
  {
    var at := FindDoc(docs, id);
    if at < |docs| {
      assert docs[at] in docs;
      PopDocKeeps(content, docs, id);
      PopDocRemoves(docs, id);
      FrontDoc(docs[at], PopDoc(docs, id));
      hide PopDoc, OnceEach, FindDoc;
    }
  }

  lemma PutDocKeeps(content: map<DocumentId, Document>, docs: seq<(DocumentId, Document)>, id: DocumentId,
      doc: Document)
    requires DocsSound(content, docs) && OnceEach(docs)
    ensures DocsSound(content[id := doc], PutDoc(docs, id, doc)) && OnceEach(PutDoc(docs, id, doc))
  {
    PopDocRemoves(docs, id);
    var rest := PopDoc(docs, id);
    var kept := if |rest| >= MAX_OPEN_TABS then rest[..MAX_OPEN_TABS - 1] else rest;
    assert forall d :: d in kept ==> d in rest;
    assert OnceEach(kept);
    FrontDoc((id, doc), kept);
    hide PopDoc, OnceEach;
  }

  lemma CloseKeeps(cfg: Config, s: State, id: DocumentId)
    requires Sound(cfg, s)
    ensures var t := CloseStep(s, id);
            && CacheSound(cfg, t.w.content, t.w.cache) && DocsSound(t.w.content, t.w.docs) && OnceEach(t.w.docs)
            && TaskOf(t.w.pc) == NoTask
            && t.w.emissions == s.w.emissions && t.e == s.e
  {
    var t := CloseStep(s, id);
    Cache.WithoutDocumentIsConsistent(s.w.cache, id);
    PopDocRemoves(s.w.docs, id);
    hide PopDoc, OnceEach, Cache.WithoutDocument, Cache.DistinctKeys, RightFor, Cache.Total;
  }

  /** Everything cached under the identifier would be right for the document. */
  ghost predicate NoWrongBitmap(cfg: Config, cache: seq<Cache.Entry>, id: DocumentId, doc: Document) {
    forall e :: e in cache && e.key.documentId == id ==> EntryRight(cfg, doc, e)
  }

  lemma OpenKeeps(cfg: Config, s: State, id: DocumentId, source: Source)
    requires Sound(cfg, s) && cfg.open(source).Some? && NoWrongBitmap(cfg, s.w.cache, id, cfg.open(source).value)
    ensures var t := OpenStep(cfg, s, id, source);
            && CacheSound(cfg, t.w.content, t.w.cache) && DocsSound(t.w.content, t.w.docs) && OnceEach(t.w.docs)
            && TaskOf(t.w.pc) == NoTask && t.w.emissions == s.w.emissions
            && t.e.produced == s.e.produced + [Event(|s.e.produced|, DocumentOpened(id))]
  {
    var doc := cfg.open(source).value;
    PutDocKeeps(s.w.content, s.w.docs, id, doc);
    assert forall e :: e in s.w.cache ==> EntrySound(cfg, s.w.content, e);
    hide PutDoc, OnceEach, Cache.Consistent, EntryRight;
  }

  /** Two states that differ in the order of the documents only. */
  predicate DocsApart(s: State, s1: State) {
    s1 == s.(w := s.w.(docs := s1.w.docs))
  }

  lemma QuietUnder(s: State, s1: State, t: State)
    requires DocsApart(s, s1) && Quiet(s1, t)
    ensures Quiet(s, t.(w := t.w.(docs := s.w.docs))) && t.w.docs == s1.w.docs
  {
    hide TaskOf;
  }

  lemma StopIsQuiet(s: State)
    ensures Quiet(s, Stop(Consume(s), HandlerFailed))
  {}

  /** A query touches the order of the documents at most. */
  lemma QueryKeeps(cfg: Config, s: State, query: Query, id: DocumentId, outcome: QueryOutcome)
    requires Sound(cfg, s)
    ensures var t := QueryStep(s, query, id, outcome);
            && DocsSound(t.w.content, t.w.docs) && OnceEach(t.w.docs) && Quiet(s, t.(w := t.w.(docs := s.w.docs)))
  {
    PromotedKeeps(s.w.content, s.w.docs, id);
    hide Promoted, FindDoc, DocsSound, OnceEach, CacheSound, Quiet, Produce, NextCommand, Stop, TaskSound, TaskOf;
    var (s1, t) := (s.(w := s.w.(docs := Promoted(s.w.docs, id))), QueryStep(s, query, id, outcome));
    var base := if outcome.StaleAtStart? || FindDoc(s.w.docs, id) == |s.w.docs| then s else s1;
    assert DocsApart(s, base);
    assert Quiet(base, t) by {
      ProduceIsQuiet(s1, s1, QueryResult(query, id), if IsText(query) then LossyRoute else CriticalRoute, None);
      ProduceIsQuiet(s1, s1, Error(id), CriticalRoute, None);
      NextIsQuiet(base, base);
      StopIsQuiet(s1);
    }
    hide QueryStep;
    QuietUnder(s, base, t);
    QuietContent(base, t);
  }

  lemma QuietContent(s: State, t: State)
    requires Quiet(s, t)
    ensures t.w.content == s.w.content
  {}

  // Bitmap events

  lemma HitIsRight(cfg: Config, content: map<DocumentId, Document>, e: Cache.Entry, job: RenderJob, invert: bool)
    requires EntrySound(cfg, content, e) && e.key == CacheKeyOf(job, invert)
    ensures Right(cfg, Emission(job, invert, content[job.documentId], e.bitmap))
  {
    hide RightFor;
  }

  lemma LargerIsRight(cfg: Config, content: map<DocumentId, Document>, e: Cache.Entry, job: RenderJob, invert: bool)
    requires EntrySound(cfg, content, e)
    requires Cache.Compatible(e, job.documentId, job.pageIndex, job.rotation, invert, job.targetWidth, job.targetHeight)
    ensures Right(cfg, Emission(job, invert, content[job.documentId], e.bitmap))
  {
    hide Shows;
  }

  /** A look-up emits a right bitmap, or goes on with the document the job names, or drops the job. */
  lemma LookUpKeeps(cfg: Config, s: State, job: RenderJob, invert: bool)
    requires Sound(cfg, s) && s.w.pc == LookUp(job, invert)
    ensures var t := LookUpStep(s, job, invert);
            && CacheSound(cfg, t.w.content, t.w.cache) && DocsSound(t.w.content, t.w.docs) && OnceEach(t.w.docs)
            && TaskSound(cfg, t.w.content, TaskOf(t.w.pc)) && t.w.content == s.w.content
            && (TaskOf(t.w.pc) == NoTask || IsFor(TaskOf(t.w.pc), job, invert))
            && ((exists em :: Emits(s, t, em) && Right(cfg, em) && em.job == job && em.invert == invert)
                || (t.w.emissions == s.w.emissions && t.e == s.e))
  {
    var key := CacheKeyOf(job, invert);
    var cache := s.w.cache;
    var at := Cache.Find(cache, key);
    var doc := if job.documentId in s.w.content then s.w.content[job.documentId] else 0;
    var larger := Cache.LargerCompatible(cache, job.documentId, job.pageIndex, job.rotation, invert, job.targetWidth,
      job.targetHeight);
    var d := FindDoc(s.w.docs, job.documentId);
    var t := LookUpStep(s, job, invert);
    hide Cache.Consistent, Cache.Find, Cache.Touched, Cache.LargerCompatible, Promoted, OnceEach, ProduceBitmap,
      Emits, RightFor, EntryRight, Right, FindDoc;
    if at < |cache| {
      assert cache[at] in cache && EntrySound(cfg, s.w.content, cache[at]);
      HitIsRight(cfg, s.w.content, cache[at], job, invert);
      var s1 := s.(w := s.w.(cache := Cache.Touched(cache, key)));
      Cache.TouchedIsConsistent(cache, cfg.budget, key);
      ProduceBitmapEmits(s, s1, job, invert, doc, cache[at].bitmap);
      var em := Emission(job, invert, doc, cache[at].bitmap);
      assert Emits(s, t, em) && Right(cfg, em);
      EmitsKeeps(s, t, em);
    } else if larger.Some? {
      var e :| e in cache && e.bitmap == larger.value
            && Cache.Compatible(e, job.documentId, job.pageIndex, job.rotation, invert, job.targetWidth,
                 job.targetHeight);
      assert EntrySound(cfg, s.w.content, e);
      LargerIsRight(cfg, s.w.content, e, job, invert);
      ProduceBitmapEmits(s, s, job, invert, doc, larger.value);
      var em := Emission(job, invert, doc, larger.value);
      assert Emits(s, t, em) && Right(cfg, em);
      EmitsKeeps(s, t, em);
    } else if d < |s.w.docs| {
      assert s.w.docs[d] in s.w.docs;
      PromotedKeeps(s.w.content, s.w.docs, job.documentId);
    }
  }

  lemma EmitsKeeps(s: State, t: State, em: Emission)
    requires Emits(s, t, em)
    ensures t.w.content == s.w.content && TaskOf(t.w.pc) == NoTask
  {}

  lemma AfterRenderKeeps(cfg: Config, s: State, job: RenderJob, invert: bool, doc: Document, raw: RawBitmap)
    requires Sound(cfg, s) && s.w.pc == AfterRender(job, invert, doc, raw)
    ensures var t := AfterRenderStep(cfg, s, job, invert, doc, raw);
            && CacheSound(cfg, t.w.content, t.w.cache) && t.w.docs == s.w.docs
            && TaskOf(t.w.pc) == NoTask && t.w.content == s.w.content
            && ((exists em :: Emits(s, t, em) && Right(cfg, em) && em.job == job && em.invert == invert)
                || (t.w.emissions == s.w.emissions && t.e == s.e))
  {
    assert TaskOf(s.w.pc) == ToShow(job, invert, doc, raw);
    if !ShutdownSeen(s.l) {
      var bitmap := Finished(raw, invert);
      var key := CacheKeyOf(job, invert);
      var cache := Cache.Inserted(s.w.cache, cfg.budget, key, bitmap);
      FinishedShows(cfg, doc, job.pageIndex, job.targetWidth, job.targetHeight, job.rotation, invert, raw);
      Cache.InsertedIsConsistent(s.w.cache, cfg.budget, key, bitmap);
      hide Cache.Consistent, Cache.Inserted, ProduceBitmap, Emits, Shows, Finished;
      assert EntrySound(cfg, s.w.content, Cache.Entry(key, bitmap));
      ProduceBitmapEmits(s, s.(w := s.w.(cache := cache)), job, invert, doc, bitmap);
      var em := Emission(job, invert, doc, bitmap);
      assert Right(cfg, em);
      EmitsKeeps(s, AfterRenderStep(cfg, s, job, invert, doc, raw), em);
    } else {
      assert TaskOf(FinishWait(job, false)) == NoTask;
      hide CacheSound;
    }
  }

  lemma RenderKeeps(cfg: Config, s: State, job: RenderJob, invert: bool, doc: Document)
    requires Sound(cfg, s) && s.w.pc == Rendering(job, invert, doc)
    ensures var t := RenderStep(cfg, s, job, invert, doc);
            Quiet(s, t) || (t.w == s.w.(pc := t.w.pc) && t.e == s.e && TaskSound(cfg, t.w.content, TaskOf(t.w.pc))
              && IsFor(TaskOf(t.w.pc), job, invert))
  {
    assert TaskOf(s.w.pc) == ToRender(job, invert, doc);
    ProduceIsQuiet(s, s, Error(job.documentId), CriticalRoute, Some(job));
    hide CacheSound, DocsSound, OnceEach, Produce, Quiet;
  }

  // Whole runs

  /** The step handles a command to open `id`. */
  predicate Opens(s: State, step: Step, id: DocumentId) {
    step.DoOpen? && s.w.pc.Dispatch? && s.w.pc.command.OpenDocument? && s.w.pc.command.id == id
  }

  /** A document is opened only on top of bitmaps that would be right for it. */
  ghost predicate OpensSafely(cfg: Config, s: State, step: Step) {
    step.DoOpen? && s.w.pc.Dispatch? && s.w.pc.command.OpenDocument? && cfg.open(s.w.pc.command.source).Some?
    ==> NoWrongBitmap(cfg, s.w.cache, s.w.pc.command.id, cfg.open(s.w.pc.command.source).value)
  }

  /** Either no bitmap event, or one more: a right bitmap for the job at hand of a document that is open. */
  ghost predicate AtMostOneRight(cfg: Config, s: State, t: State) {
    || (exists em :: Emits(s, t, em) && Right(cfg, em) && IsFor(TaskOf(s.w.pc), em.job, em.invert))
    || (t.w.emissions == s.w.emissions && Pictures(t.e.produced) == Pictures(s.e.produced))
  }

  /** A task keeps the flag that was read for its job. */
  predicate FlagKept(s: State, t: State) {
    var task := TaskOf(t.w.pc);
    task.NoTask? || IsFor(TaskOf(s.w.pc), task.job, task.invert)
      || (s.w.pc == LoadInvert(task.job) && task.invert == s.p.invert)
  }

  ghost predicate OnlyOpensAdd(s: State, step: Step, t: State) {
    forall id :: id in t.w.content ==> id in s.w.content || Opens(s, step, id)
  }

  lemma QuietKeeps(cfg: Config, s: State, t: State)
    requires Sound(cfg, s) && Quiet(s, t)
    ensures Sound(cfg, t) && AtMostOneRight(cfg, s, t) && FlagKept(s, t)
  {
    if t.e.produced != s.e.produced {
      var last := t.e.produced[|t.e.produced| - 1];
      assert t.e.produced == s.e.produced + [last];
      PicturesGrow(s.e.produced, last);
    }
    hide CacheSound, DocsSound, OnceEach, Pictures;
  }

  /** The order of the documents does not matter to the bitmap events. */
  lemma QuietFrame(cfg: Config, s: State, u: State, t: State)
    requires Sound(cfg, u) && AtMostOneRight(cfg, s, u) && FlagKept(s, u) && Quiet(s, u)
    requires u == t.(w := t.w.(docs := s.w.docs)) && DocsSound(t.w.content, t.w.docs) && OnceEach(t.w.docs)
    ensures Sound(cfg, t) && AtMostOneRight(cfg, s, t) && FlagKept(s, t) && t.w.content == s.w.content
  {
    assert t.w.emissions == s.w.emissions;
    hide CacheSound, DocsSound, OnceEach, Right, TaskOf, Pictures;
  }

  lemma SoundKept(cfg: Config, s: State, step: Step, t: State)
    requires Next(cfg, s, step, t) && Sound(cfg, s) && OpensSafely(cfg, s, step)
    ensures Sound(cfg, t) && AtMostOneRight(cfg, s, t) && FlagKept(s, t) && OnlyOpensAdd(s, step, t)
  {
    hide Sound, AtMostOneRight, FlagKept;
    if QuietStep(step) {
      QuietSteps(cfg, s, step, t);
      hide Next;
      QuietKeeps(cfg, s, t);
    } else {
      BusyStepKeeps(cfg, s, step, t);
    }
  }

  lemma BusyStepKeeps(cfg: Config, s: State, step: Step, t: State)
    requires Next(cfg, s, step, t) && Sound(cfg, s) && OpensSafely(cfg, s, step) && !QuietStep(step)
    ensures Sound(cfg, t) && AtMostOneRight(cfg, s, t) && FlagKept(s, t) && OnlyOpensAdd(s, step, t)
  {
    var pc := s.w.pc;
    match step {
      case DoOpen =>
        var (id, source) := (pc.command.id, pc.command.source);
        if cfg.open(source).Some? {
          OpenKeeps(cfg, s, id, source);
          PicturesGrow(s.e.produced, Event(|s.e.produced|, DocumentOpened(id)));
        } else {
          ProduceIsQuiet(s, s, Error(id), CriticalRoute, None);
          QuietKeeps(cfg, s, t);
        }
      case DoClose => CloseKeeps(cfg, s, pc.command.id);
      case DoQuery(outcome) =>
        QueryKeeps(cfg, s, pc.command.query, pc.command.id, outcome);
        var u := t.(w := t.w.(docs := s.w.docs));
        QuietKeeps(cfg, s, u);
        QuietFrame(cfg, s, u, t);
      case DoLookUp =>
        assert TaskOf(pc) == ToLookUp(pc.job, pc.invert);
        LookUpKeeps(cfg, s, pc.job, pc.invert);
      case DoRender =>
        assert TaskOf(pc) == ToRender(pc.job, pc.invert, pc.document);
        RenderKeeps(cfg, s, pc.job, pc.invert, pc.document);
        if Quiet(s, t) { QuietKeeps(cfg, s, t); }
      case DoAfterRender =>
        assert TaskOf(pc) == ToShow(pc.job, pc.invert, pc.document, pc.raw);
        AfterRenderKeeps(cfg, s, pc.job, pc.invert, pc.document, pc.raw);
      case _ =>
    }
    hide CacheSound, DocsSound, OnceEach, Pictures, Quiet, Emits, Right, CloseStep, LookUpStep, RenderStep,
      AfterRenderStep,
      Produce, PutDoc, QueryStep, TaskSound, TaskOf;
  }

  /** A run in which no document is opened on top of bitmaps that are wrong for it. */
  ghost predicate CarefulRun(cfg: Config, run: seq<State>, steps: seq<Step>) {
    IsRun(cfg, run, steps) && forall i :: 0 <= i < |steps| ==> OpensSafely(cfg, run[i], steps[i])
  }

  lemma RunGoesOn(cfg: Config, run: seq<State>, steps: seq<Step>, i: nat)
    requires CarefulRun(cfg, run, steps) && i < |steps|
    ensures |run| == |steps| + 1 && Next(cfg, run[i], steps[i], run[i + 1]) && OpensSafely(cfg, run[i], steps[i])
  {
    hide Next, OpensSafely;
  }

  lemma RunStarts(cfg: Config, run: seq<State>, steps: seq<Step>)
    requires CarefulRun(cfg, run, steps)
    ensures |run| == |steps| + 1
    ensures Sound(cfg, run[0]) && run[0].w.emissions == [] && run[0].e.produced == [] && TaskOf(run[0].w.pc) == NoTask
  {
    hide OpensSafely, Next;
  }

  lemma {:induction false} SoundAlways(cfg: Config, run: seq<State>, steps: seq<Step>, i: nat)
    requires CarefulRun(cfg, run, steps) && i < |run|
    ensures Sound(cfg, run[i])
    ensures |run| == |steps| + 1
    ensures i > 0 ==> AtMostOneRight(cfg, run[i - 1], run[i]) && FlagKept(run[i - 1], run[i])
    ensures i > 0 ==> OnlyOpensAdd(run[i - 1], steps[i - 1], run[i])
  {
    hide *;
    RunStarts(cfg, run, steps);
    if i > 0 {
      SoundAlways(cfg, run, steps, i - 1);
      RunGoesOn(cfg, run, steps, i - 1);
      SoundKept(cfg, run[i - 1], steps[i - 1], run[i]);
    }
  }

  lemma BodiesGrow(ems: seq<Emission>, em: Emission)
    ensures Bodies(ems + [em]) == Bodies(ems) + [Shown(em)]
  {
    assert (ems + [em])[..|ems|] == ems;
  }

  lemma BitmapEventsAgree(cfg: Config, s: State, t: State)
    requires AtMostOneRight(cfg, s, t) && Pictures(s.e.produced) == Bodies(s.w.emissions)
    ensures Pictures(t.e.produced) == Bodies(t.w.emissions)
  {
    hide Right, TaskOf, Pictures, Bodies;
    if em :| Emits(s, t, em) && Right(cfg, em) && IsFor(TaskOf(s.w.pc), em.job, em.invert) {
      PicturesGrow(s.e.produced, Event(|s.e.produced|, Shown(em)));
      BodiesGrow(s.w.emissions, em);
    }
  }

  lemma NothingShown()
    ensures Pictures([]) == Bodies([])
  {}

  /** The bitmap events of a run are its emissions, one for one and in order. */
  lemma {:induction false} EmissionsAreTheBitmapEvents(cfg: Config, run: seq<State>, steps: seq<Step>, i: nat)
    requires CarefulRun(cfg, run, steps) && i < |run|
    ensures Pictures(run[i].e.produced) == Bodies(run[i].w.emissions)
  {
    hide *;
    NothingShown();
    RunStarts(cfg, run, steps);
    if i > 0 {
      EmissionsAreTheBitmapEvents(cfg, run, steps, i - 1);
      SoundAlways(cfg, run, steps, i);
      BitmapEventsAgree(cfg, run[i - 1], run[i]);
    }
  }

  /** A new emission is right, and made for the job and with the flag of the worker's task. */
  lemma NewEmissionIsRight(cfg: Config, s: State, t: State, em: Emission)
    requires AtMostOneRight(cfg, s, t) && em in t.w.emissions && em !in s.w.emissions
    ensures Right(cfg, em) && IsFor(TaskOf(s.w.pc), em.job, em.invert)
    ensures t.w.emissions == s.w.emissions + [em] && IsOpenAs(s, em.job.documentId, em.document)
  {
    hide Right, TaskOf, Pictures;
  }

  /** The identifier names the document in this state. */
  predicate IsOpenAs(s: State, id: DocumentId, doc: Document) {
    id in s.w.content && s.w.content[id] == doc
  }

  /** The bitmap was emitted by a step before `i`, and its identifier named its document at that step. */
  ghost predicate EmittedWhileOpen(run: seq<State>, i: nat, em: Emission) {
    exists k :: 0 <= k < i && k + 1 < |run| && run[k + 1].w.emissions == run[k].w.emissions + [em]
             && IsOpenAs(run[k], em.job.documentId, em.document)
  }

  lemma EmittedNow(run: seq<State>, i: nat, em: Emission)
    requires i + 1 < |run| && run[i + 1].w.emissions == run[i].w.emissions + [em]
    requires IsOpenAs(run[i], em.job.documentId, em.document)
    ensures EmittedWhileOpen(run, i + 1, em)
  {}

  lemma EmittedLater(run: seq<State>, i: nat, j: nat, em: Emission)
    requires EmittedWhileOpen(run, i, em) && i <= j
    ensures EmittedWhileOpen(run, j, em)
  {}

  /**
   * Every emitted bitmap is a render of the page of its job in the document that its identifier named
   * when it was emitted, at the requested size or with one side large enough.
   */
  lemma {:induction false} EveryBitmapIsRight(cfg: Config, run: seq<State>, steps: seq<Step>, i: nat, em: Emission)
    requires CarefulRun(cfg, run, steps) && i < |run| && em in run[i].w.emissions
    ensures Right(cfg, em) && EmittedWhileOpen(run, i, em)
  {
    hide *;
    RunStarts(cfg, run, steps);
    if i > 0 && em in run[i - 1].w.emissions {
      EveryBitmapIsRight(cfg, run, steps, i - 1, em);
      EmittedLater(run, i - 1, i, em);
    } else if i > 0 {
      SoundAlways(cfg, run, steps, i);
      NewEmissionIsRight(cfg, run[i - 1], run[i], em);
      EmittedNow(run, i - 1, em);
    }
  }

  /** The colour flag was read as `invert` when the worker took up the job. */
  ghost predicate FlagRead(run: seq<State>, i: nat, job: RenderJob, invert: bool) {
    exists k :: 0 <= k < i && k < |run| && run[k].w.pc == LoadInvert(job) && run[k].p.invert == invert
  }

  lemma FlagReadLater(run: seq<State>, i: nat, j: nat, job: RenderJob, invert: bool)
    requires FlagRead(run, i, job, invert) && i <= j
    ensures FlagRead(run, j, job, invert)
  {}

  lemma FlagReadNow(run: seq<State>, i: nat, job: RenderJob, invert: bool)
    requires i < |run| && run[i].w.pc == LoadInvert(job) && run[i].p.invert == invert
    ensures FlagRead(run, i + 1, job, invert)
  {}

  /** A task with the flag it has read. */
  ghost predicate HasReadFlag(run: seq<State>, i: nat)
    requires i < |run|
  {
    var task := TaskOf(run[i].w.pc);
    task.NoTask? || FlagRead(run, i, task.job, task.invert)
  }

  lemma FlagStaysRead(run: seq<State>, i: nat)
    requires i + 1 < |run| && HasReadFlag(run, i) && FlagKept(run[i], run[i + 1])
    ensures HasReadFlag(run, i + 1)
  {
    hide TaskOf, FlagRead;
    var task := TaskOf(run[i + 1].w.pc);
    if !task.NoTask? {
      if IsFor(TaskOf(run[i].w.pc), task.job, task.invert) {
        FlagReadLater(run, i, i + 1, task.job, task.invert);
      } else {
        FlagReadNow(run, i, task.job, task.invert);
      }
    }
  }

  lemma NoTaskHasReadFlag(run: seq<State>, i: nat)
    requires i < |run| && TaskOf(run[i].w.pc) == NoTask
    ensures HasReadFlag(run, i)
  {
    hide TaskOf, FlagRead;
  }

  lemma {:induction false} TaskHasReadFlag(cfg: Config, run: seq<State>, steps: seq<Step>, i: nat)
    requires CarefulRun(cfg, run, steps) && i < |run|
    ensures HasReadFlag(run, i)
  {
    hide *;
    RunStarts(cfg, run, steps);
    if i > 0 {
      TaskHasReadFlag(cfg, run, steps, i - 1);
      SoundAlways(cfg, run, steps, i);
      FlagStaysRead(run, i - 1);
    } else {
      NoTaskHasReadFlag(run, 0);
    }
  }

  lemma EmittedTaskFlag(run: seq<State>, i: nat, em: Emission)
    requires i < |run| && HasReadFlag(run, i) && IsFor(TaskOf(run[i].w.pc), em.job, em.invert)
    ensures FlagRead(run, i, em.job, em.invert)
  {
    hide TaskOf, FlagRead;
  }

  /** Every emitted bitmap is inverted as the flag read for its job said. */
  lemma {:induction false} EveryBitmapFollowsTheFlag(cfg: Config, run: seq<State>, steps: seq<Step>, i: nat,
      em: Emission)
    requires CarefulRun(cfg, run, steps) && i < |run| && em in run[i].w.emissions
    ensures FlagRead(run, i, em.job, em.invert)
  {
    hide *;
    RunStarts(cfg, run, steps);
    if i > 0 {
      if em in run[i - 1].w.emissions {
        EveryBitmapFollowsTheFlag(cfg, run, steps, i - 1, em);
      } else {
        SoundAlways(cfg, run, steps, i);
        TaskHasReadFlag(cfg, run, steps, i - 1);
        NewEmissionIsRight(cfg, run[i - 1], run[i], em);
        EmittedTaskFlag(run, i - 1, em);
      }
      FlagReadLater(run, i - 1, i, em.job, em.invert);
    }
  }

  // Generations

  /** The worker took up the job while its generation was the current one. */
  ghost predicate TakenUpCurrent(run: seq<State>, i: nat, job: RenderJob) {
    exists k :: 0 <= k < i && k < |run| && run[k].w.pc.Dispatch? && run[k].w.pc.command == RenderPage(job)
             && run[k].p.generation == job.generation
  }

  /** A job comes to the reading of the colour flag only past the check of its generation. */
  predicate PastCheck(s: State, t: State) {
    t.w.pc.LoadInvert? ==>
      || t.w.pc == s.w.pc
      || (s.w.pc.Dispatch? && s.w.pc.command == RenderPage(t.w.pc.job) && s.p.generation == t.w.pc.job.generation)
  }

  lemma AfterEmitPastCheck(s: State, forJob: Option<RenderJob>, ok: bool)
    ensures !AfterEmit(s, forJob, ok).w.pc.LoadInvert?
  {}

  lemma EmitPastCheck(s: State)
    requires s.w.pc.Emit?
    ensures !EmitCheckStep(s).w.pc.LoadInvert? && !EmitSendStep(s).w.pc.LoadInvert?
  {
    var (event, forJob) := (s.w.pc.event, s.w.pc.forJob);
    AfterEmitPastCheck(Abandon(Consume(s), event), forJob, false);
    AfterEmitPastCheck(Abandon(s, event), forJob, false);
    AfterEmitPastCheck(s.(e := PutCritical(s.e, event)), forJob, true);
    AfterEmitPastCheck(s.(e := PutEvent(s.e, event)), forJob, true);
    AfterEmitPastCheck(s.(e := s.e.(dropped := s.e.dropped + multiset{event})), forJob, true);
    hide AfterEmit;
  }

  lemma RenderingPastCheck(cfg: Config, s: State)
    ensures s.w.pc.LookUp? ==> !LookUpStep(s, s.w.pc.job, s.w.pc.invert).w.pc.LoadInvert?
    ensures s.w.pc.Rendering? ==> !RenderStep(cfg, s, s.w.pc.job, s.w.pc.invert, s.w.pc.document).w.pc.LoadInvert?
    ensures s.w.pc.AfterRender? ==>
              !AfterRenderStep(cfg, s, s.w.pc.job, s.w.pc.invert, s.w.pc.document, s.w.pc.raw).w.pc.LoadInvert?
  {
    hide Cache.Find, Cache.Touched, Cache.LargerCompatible, Cache.Inserted, Finished, FindDoc, Promoted;
  }

  lemma CommandPastCheck(cfg: Config, s: State, c: Command, outcome: QueryOutcome)
    ensures c.OpenDocument? ==> !OpenStep(cfg, s, c.id, c.source).w.pc.LoadInvert?
    ensures c.CloseDocument? ==> !CloseStep(s, c.id).w.pc.LoadInvert?
    ensures c.RunQuery? ==> !QueryStep(s, c.query, c.id, outcome).w.pc.LoadInvert?
  {
    hide Cache.WithoutDocument, PopDoc, PutDoc, FindDoc, Promoted;
  }

  lemma StepPastCheck(cfg: Config, s: State, step: Step, t: State)
    requires Next(cfg, s, step, t)
    ensures PastCheck(s, t)
  {
    hide LookUpStep, RenderStep, AfterRenderStep, OpenStep, CloseStep, QueryStep, EmitCheckStep, EmitSendStep,
      AfterEmit, KeyOf;
    var pc := s.w.pc;
    match step {
      case DoEmitCheck => EmitPastCheck(s);
      case DoEmitSend => EmitPastCheck(s);
      case DoEmitShutdown => AfterEmitPastCheck(Abandon(Consume(s), pc.event), pc.forJob, false);
      case DoLookUp => RenderingPastCheck(cfg, s);
      case DoRender => RenderingPastCheck(cfg, s);
      case DoAfterRender => RenderingPastCheck(cfg, s);
      case DoQuery(outcome) => CommandPastCheck(cfg, s, pc.command, outcome);
      case DoOpen => CommandPastCheck(cfg, s, pc.command, Answer);
      case DoClose => CommandPastCheck(cfg, s, pc.command, Answer);
      case _ => OtherPastCheck(cfg, s, step, t);
    }
  }

  lemma OtherPastCheck(cfg: Config, s: State, step: Step, t: State)
    requires Next(cfg, s, step, t) && !step.DoEmitCheck? && !step.DoEmitSend? && !step.DoEmitShutdown?
    requires !step.DoLookUp?
    requires !step.DoRender? && !step.DoAfterRender? && !step.DoQuery? && !step.DoOpen? && !step.DoClose?
    ensures PastCheck(s, t)
  {
    hide KeyOf;
  }

  lemma TakenUpLater(run: seq<State>, i: nat, j: nat, job: RenderJob)
    requires TakenUpCurrent(run, i, job) && i <= j
    ensures TakenUpCurrent(run, j, job)
  {}

  lemma {:induction false} FlagReaderIsCurrent(cfg: Config, run: seq<State>, steps: seq<Step>, i: nat)
    requires CarefulRun(cfg, run, steps) && i < |run| && run[i].w.pc.LoadInvert?
    ensures TakenUpCurrent(run, i, run[i].w.pc.job)
  {
    hide *;
    RunStarts(cfg, run, steps);
    InitialIsReceiving(cfg, run, steps);
    assert i > 0;
    RunGoesOn(cfg, run, steps, i - 1);
    StepPastCheck(cfg, run[i - 1], steps[i - 1], run[i]);
    if run[i].w.pc == run[i - 1].w.pc {
      FlagReaderIsCurrent(cfg, run, steps, i - 1);
      TakenUpLater(run, i - 1, i, run[i].w.pc.job);
    } else {
      TakenUpNow(run, i - 1);
    }
  }

  lemma InitialIsReceiving(cfg: Config, run: seq<State>, steps: seq<Step>)
    requires CarefulRun(cfg, run, steps)
    ensures |run| > 0 && run[0].w.pc.Receive?
  {
    hide Next, OpensSafely;
  }

  lemma TakenUpNow(run: seq<State>, i: nat)
    requires i + 1 < |run| && PastCheck(run[i], run[i + 1]) && run[i + 1].w.pc.LoadInvert?
    requires run[i + 1].w.pc != run[i].w.pc
    ensures TakenUpCurrent(run, i + 1, run[i + 1].w.pc.job)
  {}

  /** Every emitted bitmap is for a job taken up while its generation was current. */
  lemma EveryBitmapWasCurrent(cfg: Config, run: seq<State>, steps: seq<Step>, i: nat, em: Emission)
    requires CarefulRun(cfg, run, steps) && i < |run| && em in run[i].w.emissions
    ensures TakenUpCurrent(run, i, em.job)
  {
    EveryBitmapFollowsTheFlag(cfg, run, steps, i, em);
    var k: nat :| 0 <= k < i && k < |run| && run[k].w.pc == LoadInvert(em.job) && run[k].p.invert == em.invert;
    hide CarefulRun, TakenUpCurrent;
    FlagReaderIsCurrent(cfg, run, steps, k);
    TakenUpLater(run, k, i, em.job);
  }

  /** A step that does not open `id` emits no bitmap of it while it is closed. */
  lemma StaysDark(cfg: Config, s: State, step: Step, t: State, id: DocumentId)
    requires AtMostOneRight(cfg, s, t) && OnlyOpensAdd(s, step, t) && id !in s.w.content && !Opens(s, step, id)
    ensures id !in t.w.content && s.w.emissions <= t.w.emissions && |t.w.emissions| <= |s.w.emissions| + 1
    ensures |t.w.emissions| > |s.w.emissions| ==> t.w.emissions[|s.w.emissions|].job.documentId != id
  {
    hide Right, TaskOf, Pictures;
  }

  lemma {:induction false} AbsentStaysDark(cfg: Config, run: seq<State>, steps: seq<Step>, i: nat, j: nat,
      id: DocumentId)
    requires CarefulRun(cfg, run, steps) && |run| == |steps| + 1 && i <= j < |run| && id !in run[i].w.content
    requires forall k :: i <= k < j ==> !Opens(run[k], steps[k], id)
    ensures id !in run[j].w.content && run[i].w.emissions <= run[j].w.emissions
    ensures forall k :: |run[i].w.emissions| <= k < |run[j].w.emissions| ==> run[j].w.emissions[k].job.documentId != id
  {
    hide CarefulRun, Sound, FlagKept, OnlyOpensAdd, AtMostOneRight, Opens;
    if i < j {
      AbsentStaysDark(cfg, run, steps, i, j - 1, id);
      SoundAlways(cfg, run, steps, j);
      StaysDark(cfg, run[j - 1], steps[j - 1], run[j], id);
    }
  }

  /** The step handles a command to close `id`. */
  predicate Closes(s: State, step: Step, id: DocumentId) {
    step.DoClose? && s.w.pc.Dispatch? && s.w.pc.command.CloseDocument? && s.w.pc.command.id == id
  }

  lemma CloseForgets(cfg: Config, s: State, step: Step, t: State, id: DocumentId)
    requires Next(cfg, s, step, t) && Closes(s, step, id)
    ensures id !in t.w.content && t.w.emissions == s.w.emissions
  {
    hide PopDoc, Cache.WithoutDocument;
  }

  /** Once the worker has handled a close, no bitmap of the document is emitted until it handles an open of it. */
  lemma ClosedStaysDark(cfg: Config, run: seq<State>, steps: seq<Step>, i: nat, j: nat, id: DocumentId)
    requires CarefulRun(cfg, run, steps) && |run| == |steps| + 1 && i < j < |run| && Closes(run[i], steps[i], id)
    requires forall k :: i < k < j ==> !Opens(run[k], steps[k], id)
    ensures id !in run[j].w.content && run[i].w.emissions <= run[j].w.emissions
    ensures forall k :: |run[i].w.emissions| <= k < |run[j].w.emissions| ==> run[j].w.emissions[k].job.documentId != id
  {
    hide *;
    RunGoesOn(cfg, run, steps, i);
    CloseForgets(cfg, run[i], steps[i], run[i + 1], id);
    AbsentStaysDark(cfg, run, steps, i + 1, j, id);
  }

  // Which opens are safe

  lemma EmptiedIsSafe(cfg: Config, s: State, id: DocumentId, doc: Document)
    requires Sound(cfg, s) && (id !in s.w.content || s.w.content[id] == doc)
    ensures NoWrongBitmap(cfg, s.w.cache, id, doc)
  {
    hide EntryRight, Cache.Consistent, OnceEach, DocsSound, TaskSound;
  }

  /** A document is opened only under an identifier that is closed or names the same document. */
  predicate OpensClosedOrSame(cfg: Config, s: State, step: Step) {
    step.DoOpen? && s.w.pc.Dispatch? && s.w.pc.command.OpenDocument? && cfg.open(s.w.pc.command.source).Some?
    ==> var id := s.w.pc.command.id;
        id !in s.w.content || s.w.content[id] == cfg.open(s.w.pc.command.source).value
  }

  lemma {:induction false} ClosedOrSamePrefix(cfg: Config, run: seq<State>, steps: seq<Step>, n: nat)
    requires IsRun(cfg, run, steps) && n <= |steps|
    requires forall i :: 0 <= i < |steps| ==> OpensClosedOrSame(cfg, run[i], steps[i])
    ensures |run| == |steps| + 1 && CarefulRun(cfg, run[..n + 1], steps[..n])
  {
    hide Next, OpensSafely, OpensClosedOrSame, Sound, AtMostOneRight, FlagKept, OnlyOpensAdd;
    if n > 0 {
      ClosedOrSamePrefix(cfg, run, steps, n - 1);
      SoundAlways(cfg, run[..n], steps[..n - 1], n - 1);
      SafeStep(cfg, run[n - 1], steps[n - 1]);
    }
  }

  lemma SafeStep(cfg: Config, s: State, step: Step)
    requires Sound(cfg, s) && OpensClosedOrSame(cfg, s, step)
    ensures OpensSafely(cfg, s, step)
  {
    hide Sound, NoWrongBitmap;
    if !OpensSafely(cfg, s, step) {
      EmptiedIsSafe(cfg, s, s.w.pc.command.id, cfg.open(s.w.pc.command.source).value);
    }
  }

  /** Closing an identifier before it is opened for another document makes a run careful. */
  lemma ClosingFirstIsCareful(cfg: Config, run: seq<State>, steps: seq<Step>)
    requires IsRun(cfg, run, steps)
    requires forall i :: 0 <= i < |steps| ==> OpensClosedOrSame(cfg, run[i], steps[i])
    ensures CarefulRun(cfg, run, steps)
  {
    ClosedOrSamePrefix(cfg, run, steps, |steps|);
    assert run[..|steps| + 1] == run && steps[..|steps|] == steps;
    hide CarefulRun;
  }
}
