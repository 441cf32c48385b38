// When a document identifier may be opened again without a close: exactly when every bitmap cached
// under it would be right for the new document. Otherwise some continuation shows a wrong bitmap.

module Reopening {
  import opened Wrappers
  import opened RenderTypes
  import opened RenderPipeline
  import opened Scheduler
  import opened EmittedBitmaps
  import opened Bitmap
  import Cache

  // What the pipeline can come to

  ghost predicate WithoutOpen(steps: seq<Step>) {
    forall step :: step in steps ==> !step.DoOpen?
  }

  /** Steps that open no document lead from `s` to `t`. */
  ghost predicate Leads(cfg: Config, s: State, t: State) {
    exists states, steps :: IsWay(cfg, states, steps, s, t)
  }

  ghost predicate IsWay(cfg: Config, states: seq<State>, steps: seq<Step>, s: State, t: State) {
    Chain(cfg, states, steps) && WithoutOpen(steps) && states[0] == s && states[|steps|] == t
  }

  lemma OneStep(cfg: Config, s: State, step: Step, t: State)
    requires Next(cfg, s, step, t) && !step.DoOpen?
    ensures Leads(cfg, s, t)
  {
    hide Next;
    assert IsWay(cfg, [s, t], [step], s, t);
  }

  lemma LeadsOn(cfg: Config, s: State, t: State, u: State)
    requires Leads(cfg, s, t) && Leads(cfg, t, u)
    ensures Leads(cfg, s, u)
  {
    hide Next;
    var a, aSteps :| IsWay(cfg, a, aSteps, s, t);
    var b, bSteps :| IsWay(cfg, b, bSteps, t, u);
    var (states, steps) := (a + b[1..], aSteps + bSteps);
    forall i | 0 <= i < |steps| ensures Next(cfg, states[i], steps[i], states[i + 1]) {
      if i >= |aSteps| {
        assert states[i] == b[i - |aSteps|] && states[i + 1] == b[i - |aSteps| + 1] && steps[i] == bSteps[i - |aSteps|];
      }
    }
    assert IsWay(cfg, states, steps, s, u);
  }

  lemma BumpLeads(cfg: Config, s: State)
    requires s.p.lock == Free && !s.l.schedulerDropped
    ensures Leads(cfg, s, AfterBump(s))
  {
    var states := BumpIsASequenceOfSteps(cfg, s);
    hide Chain, AfterBump;
    assert IsWay(cfg, states, [BumpAcquire, BumpAdd, BumpRetain, BumpRelease], s, AfterBump(s));
  }

  lemma SendLeads(cfg: Config, s: State, job: RenderJob)
    requires s.p.lock == Free && !s.l.schedulerDropped
    ensures Leads(cfg, s, AfterSend(s, RenderPage(job)))
  {
    var states, steps := SendIsASequenceOfSteps(cfg, s, job);
    hide Chain, AfterSend;
    assert IsWay(cfg, states, steps, s, AfterSend(s, RenderPage(job)));
  }

  // The worker undisturbed

  /** Nothing is queued, locked or shutting down, and a critical event has room. */
  predicate Calm(s: State) {
    && s.q.control == [] && s.q.visible == [] && s.q.low == []
    && s.p.lock == Free && !ShutdownSeen(s.l) && |s.e.critical| < CRITICAL_CAPACITY
  }

  /** The worker is about to look for its next command. */
  predicate Ready(s: State) {
    s.w.pc.Receive? && s.w.pc.stage.SeeShutdown?
  }

  /** The worker's data is that of `s`. */
  predicate SameData(s: State, t: State) {
    t.w.docs == s.w.docs && t.w.cache == s.w.cache && t.w.content == s.w.content && t.w.emissions == s.w.emissions
  }

  /** A command to open a document reaches the worker. */
  lemma OpenArrives(cfg: Config, s: State, id: DocumentId, source: Source) returns (t: State)
    requires Calm(s) && Ready(s)
    ensures Leads(cfg, s, t) && Calm(t) && SameData(s, t) && t.e == s.e
    ensures t.w.pc.Dispatch? && t.w.pc.command == OpenDocument(id, source)
  {
    var s1 := SendOtherStep(s, OpenDocument(id, source));
    var s2 := ReceiveStep(s1);
    t := ReceiveStep(s2);
    hide Leads;
    OneStep(cfg, s, SendOther(OpenDocument(id, source)), s1);
    OneStep(cfg, s1, DoReceive, s2);
    OneStep(cfg, s2, DoReceive, t);
    hide Next;
    LeadsOn(cfg, s, s1, s2);
    LeadsOn(cfg, s, s2, t);
  }

  /** The event of an open is delivered. */
  lemma OpenIsReported(cfg: Config, s: State) returns (t: State)
    requires Calm(s) && s.w.pc.Emit? && s.w.pc.emitStage.EmitCheck? && s.w.pc.route.CriticalRoute?
    requires s.w.pc.forJob.None?
    ensures Leads(cfg, s, t) && Ready(t) && SameData(s, t) && t.p == s.p && t.l == s.l
    ensures t.q.control == [] && t.q.visible == [] && t.q.low == []
    ensures t.e.events == s.e.events && |t.e.critical| == |s.e.critical| + 1
  {
    var s1 := EmitCheckStep(s);
    t := EmitSendStep(s1);
    hide Leads;
    OneStep(cfg, s, DoEmitCheck, s1);
    OneStep(cfg, s1, DoEmitSend, t);
    hide Next;
    LeadsOn(cfg, s, s1, t);
  }

  /** A visible render request reaches the worker. */
  lemma RequestArrives(cfg: Config, s: State, c: Command) returns (t: State)
    requires Ready(s) && s.q.control == [] && s.q.low == [] && s.q.visible == [c] && !ShutdownSeen(s.l)
    ensures Leads(cfg, s, t) && SameData(s, t) && t.e == s.e && t.p == s.p && t.l == s.l
    ensures t.q.control == [] && t.q.visible == [] && t.q.low == [] && t.w.pc.Dispatch? && t.w.pc.command == c
  {
    var s1 := ReceiveStep(s);
    var s2 := ReceiveStep(s1);
    var s3 := ReceiveStep(s2);
    hide Leads;
    OneStep(cfg, s, DoReceive, s1);
    OneStep(cfg, s1, DoReceive, s2);
    OneStep(cfg, s2, DoReceive, s3);
    LeadsOn(cfg, s, s1, s2);
    LeadsOn(cfg, s, s2, s3);
    t := s3;
    if s2.w.pc.stage.TryLowFirst? {
      t := ReceiveStep(s3);
      OneStep(cfg, s3, DoReceive, t);
      LeadsOn(cfg, s, s3, t);
    }
  }

  /** The worker takes up a current job and reads the colour flag. */
  lemma JobIsTakenUp(cfg: Config, s: State, job: RenderJob) returns (t: State)
    requires s.w.pc.Dispatch? && s.w.pc.command == RenderPage(job) && job.generation == s.p.generation
    ensures Leads(cfg, s, t) && t == s.(w := s.w.(pc := LookUp(job, s.p.invert)))
  {
    var s1 := s.(w := s.w.(pc := LoadInvert(job)));
    t := s.(w := s.w.(pc := LookUp(job, s.p.invert)));
    hide Leads;
    OneStep(cfg, s, DoLoadGeneration, s1);
    OneStep(cfg, s1, DoLoadInvert, t);
    LeadsOn(cfg, s, s1, t);
  }

  /** After two bumps nothing is pending for the new generation. */
  lemma TwoBumps(cfg: Config, s: State) returns (t: State)
    requires s.p.lock == Free && !s.l.schedulerDropped
    ensures Leads(cfg, s, t) && t == s.(p := s.p.(generation := s.p.generation + 2, pending := {}))
  {
    var s1 := AfterBump(s);
    t := AfterBump(s1);
    hide Leads;
    BumpLeads(cfg, s);
    BumpLeads(cfg, s1);
    LeadsOn(cfg, s, s1, t);
    assert forall k :: k in t.p.pending ==> k.generation == s.p.generation + 1 && k.generation == s.p.generation + 2;
    assert t.p.pending == {};
  }

  lemma SentAlone(s: State, job: RenderJob)
    requires s.q.visible == [] && s.p.lock == Free && s.p.pending == {} && job.priority == Visible && !s.w.pc.Stopped?
    ensures var t := AfterSend(s, RenderPage(job));
            && t.q == PushVisible(s.q, RenderPage(job)) && t.w == s.w && t.e == s.e && t.l == s.l
            && t.p == s.p.(pending := {KeyOf(job)})
  {
    hide KeyOf;
  }

  /** The job asked for next, after two bumps. */
  function FreshJob(s: State, k: CacheKey): RenderJob {
    RenderJob(0, s.p.generation + 2, k.documentId, k.pageIndex, k.targetWidth, k.targetHeight, k.rotation, Visible,
      Page)
  }

  /** From a calm state a fresh request comes to its look-up. */
  lemma JobIsServed(cfg: Config, s: State, k: CacheKey) returns (t: State)
    requires Ready(s) && s.q.control == [] && s.q.visible == [] && s.q.low == [] && s.p.lock == Free
    requires !ShutdownSeen(s.l)
    ensures Leads(cfg, s, t) && SameData(s, t) && t.e == s.e && t.l == s.l && t.p.lock == Free
    ensures t.q.control == [] && t.q.visible == [] && t.q.low == []
    ensures t.w.pc == LookUp(FreshJob(s, k), k.invertColors)
  {
    var job := FreshJob(s, k);
    var s1 := s.(p := s.p.(invert := k.invertColors));
    hide Leads;
    OneStep(cfg, s, SetInvert(k.invertColors), s1);
    hide Next;
    var s2 := TwoBumps(cfg, s1);
    LeadsOn(cfg, s, s1, s2);
    var s3 := AfterSend(s2, RenderPage(job));
    SendLeads(cfg, s2, job);
    SentAlone(s2, job);
    LeadsOn(cfg, s, s2, s3);
    hide AfterSend, KeyOf;
    var s4 := RequestArrives(cfg, s3, RenderPage(job));
    LeadsOn(cfg, s, s3, s4);
    t := JobIsTakenUp(cfg, s4, job);
    LeadsOn(cfg, s, s4, t);
  }

  // A wrong bitmap

  /** A look-up under the key of a cached bitmap emits it, as a bitmap of the document open under its identifier. */
  lemma CachedIsEmitted(cfg: Config, s: State, job: RenderJob, invert: bool, e: Cache.Entry)
    requires e in s.w.cache && Cache.DistinctKeys(s.w.cache) && e.key == CacheKeyOf(job, invert)
    requires s.w.pc == LookUp(job, invert) && job.documentId in s.w.content
    ensures LookUpStep(s, job, invert).w.emissions
         == s.w.emissions + [Emission(job, invert, s.w.content[job.documentId], e.bitmap)]
  {
    var at := Cache.Find(s.w.cache, e.key);
    var i :| 0 <= i < |s.w.cache| && s.w.cache[i] == e;
    assert s.w.cache[at].key == s.w.cache[i].key;
    assert at == i;
    hide Cache.Find, Cache.Touched, Cache.LargerCompatible, FindDoc, Promoted;
  }

  lemma RightAsEntry(cfg: Config, em: Emission, e: Cache.Entry)
    requires em.bitmap == e.bitmap && CacheKeyOf(em.job, em.invert) == e.key
    ensures Right(cfg, em) <==> EntryRight(cfg, em.document, e)
  {
    hide RightFor;
  }

  /** From an open on top of a wrong bitmap, the bitmap can be shown for the new document. */
  lemma WrongBitmapIsShown(cfg: Config, s: State, id: DocumentId, source: Source, e: Cache.Entry)
    returns (u: State, em: Emission)
    requires Calm(s) && cfg.open(source).Some? && e in s.w.cache && Cache.DistinctKeys(s.w.cache)
    requires e.key.documentId == id
    requires !EntryRight(cfg, cfg.open(source).value, e)
    ensures Leads(cfg, OpenStep(cfg, s, id, source), u) && em in u.w.emissions && !Right(cfg, em)
  {
    hide OpenStep, Leads, Cache.DistinctKeys, EntryRight, Right, LookUpStep, Next;
    var t := OpenStep(cfg, s, id, source);
    OpenStarts(cfg, s, id, source);
    var t1 := OpenIsReported(cfg, t);
    var t2 := JobIsServed(cfg, t1, e.key);
    var (job, invert) := (FreshJob(t1, e.key), e.key.invertColors);
    u := LookUpStep(t2, job, invert);
    LookUpIsNext(cfg, t2, job, invert);
    CachedIsEmitted(cfg, t2, job, invert, e);
    LeadsOn(cfg, t, t1, t2);
    LeadsOn(cfg, t, t2, u);
    em := Emission(job, invert, cfg.open(source).value, e.bitmap);
    assert em == u.w.emissions[|u.w.emissions| - 1];
    RightAsEntry(cfg, em, e);
  }

  lemma LookUpIsNext(cfg: Config, s: State, job: RenderJob, invert: bool)
    requires s.w.pc == LookUp(job, invert)
    ensures Leads(cfg, s, LookUpStep(s, job, invert))
  {
    hide LookUpStep;
    OneStep(cfg, s, DoLookUp, LookUpStep(s, job, invert));
    hide Leads, Next;
  }

  lemma OpenStarts(cfg: Config, s: State, id: DocumentId, source: Source)
    requires Calm(s) && cfg.open(source).Some?
    ensures var t := OpenStep(cfg, s, id, source);
            && Calm(t) && t.w.pc.Emit? && t.w.pc.emitStage.EmitCheck? && t.w.pc.route.CriticalRoute?
                 && t.w.pc.forJob.None?
            && t.w.cache == s.w.cache && id in t.w.content && t.w.content[id] == cfg.open(source).value
            && t.e.events == s.e.events && t.e.critical == s.e.critical && t.w.emissions == s.w.emissions
            && t.w.docs == PutDoc(s.w.docs, id, cfg.open(source).value)
  {
    hide PutDoc;
  }

  // The exact condition

  /** The run with the open and a way from there is still careful. */
  lemma CarefulGoesOn(cfg: Config, run: seq<State>, steps: seq<Step>, t: State, u: State)
    returns (longer: seq<State>, more: seq<Step>)
    requires CarefulRun(cfg, run, steps) && Next(cfg, run[|steps|], DoOpen, t) && OpensSafely(cfg, run[|steps|], DoOpen)
    requires Leads(cfg, t, u)
    ensures CarefulRun(cfg, longer, more) && longer[|more|] == u
  {
    var s := run[|steps|];
    hide Next, OpensSafely;
    var states, rest :| IsWay(cfg, states, rest, t, u);
    assert Chain(cfg, [s, t], [DoOpen]);
    RunExtends(cfg, run, steps, [s, t], [DoOpen]);
    assert [s, t][1..] == [t];
    RunExtends(cfg, run + [t], steps + [DoOpen], states, rest);
    longer, more := run + [t] + states[1..], steps + [DoOpen] + rest;
    forall i | 0 <= i < |more| ensures OpensSafely(cfg, longer[i], more[i]) {
      if i < |steps| {
        assert longer[i] == run[i] && more[i] == steps[i];
      } else if i > |steps| {
        assert more[i] == rest[i - |steps| - 1];
        NoOpenIsSafe(cfg, longer[i], more[i]);
      }
    }
  }

  lemma NoOpenIsSafe(cfg: Config, s: State, step: Step)
    requires !step.DoOpen?
    ensures OpensSafely(cfg, s, step)
  {}

  /** Every bitmap emitted up to a state that can come next is right. */
  ghost predicate OnlyRightFrom(cfg: Config, t: State) {
    forall u, em :: Leads(cfg, t, u) && em in u.w.emissions ==> Right(cfg, em)
  }

  /**
   * When every open so far was safe and the pipeline is calm, the next open is followed by right bitmaps
   * only, whatever is done until the open after it, exactly when each bitmap cached under the identifier
   * would be right for the new document.
   */
  lemma OpenIsSafeIff(cfg: Config, run: seq<State>, steps: seq<Step>, id: DocumentId, source: Source, t: State)
    requires CarefulRun(cfg, run, steps)
    requires var s := run[|steps|];
             && Calm(s) && s.w.pc.Dispatch? && s.w.pc.command == OpenDocument(id, source) && Next(cfg, s, DoOpen, t)
    requires cfg.open(source).Some?
    ensures NoWrongBitmap(cfg, run[|steps|].w.cache, id, cfg.open(source).value) <==> OnlyRightFrom(cfg, t)
  {
    var (s, doc) := (run[|steps|], cfg.open(source).value);
    SoundAlways(cfg, run, steps, |steps|);
    assert Cache.DistinctKeys(s.w.cache) && t == OpenStep(cfg, s, id, source);
    assert OpensSafely(cfg, s, DoOpen) <==> NoWrongBitmap(cfg, s.w.cache, id, doc);
    hide CarefulRun, Sound, Next, Leads, Cache.DistinctKeys, OpenStep, EntryRight, Right, OpensSafely, AtMostOneRight,
      FlagKept, OnlyOpensAdd, Calm;
    if NoWrongBitmap(cfg, s.w.cache, id, doc) {
      forall u, em | Leads(cfg, t, u) && em in u.w.emissions ensures Right(cfg, em) {
        var longer, more := CarefulGoesOn(cfg, run, steps, t, u);
        LastIsRight(cfg, longer, more, em);
      }
    } else {
      var e :| e in s.w.cache && e.key.documentId == id && !EntryRight(cfg, doc, e);
      var u, em := WrongBitmapIsShown(cfg, s, id, source, e);
    }
  }

  lemma LastIsRight(cfg: Config, run: seq<State>, steps: seq<Step>, em: Emission)
    requires CarefulRun(cfg, run, steps) && em in run[|steps|].w.emissions
    ensures Right(cfg, em)
  {
    assert |run| == |steps| + 1;
    hide CarefulRun, Right;
    EveryBitmapIsRight(cfg, run, steps, |steps|, em);
  }

  // Two opens without a close

  /** A render that fits the cache leaves its bitmap there. */
  lemma RenderIsCached(cfg: Config, s: State, job: RenderJob, invert: bool, doc: Document) returns (t: State)
    requires s.w.pc == LookUp(job, invert) && s.w.cache == [] && s.w.docs == [(job.documentId, doc)]
    requires !ShutdownSeen(s.l)
    requires s.w.content == map[job.documentId := doc] && job.kind == Page
    requires var raw := cfg.render(doc, job.pageIndex, job.targetWidth, job.targetHeight, job.rotation);
             raw.Some? && Cache.Size(Finished(raw.value, invert)) <= cfg.budget
    ensures Leads(cfg, s, t) && t.q == s.q && t.p == s.p && t.l == s.l
    ensures t.w.pc.Emit? && t.w.pc.emitStage.EmitCheck? && t.w.pc.route.PageRoute? && t.w.pc.forJob == Some(job)
    ensures t.e.events == s.e.events && t.e.critical == s.e.critical && t.w.content == s.w.content
    ensures var raw := cfg.render(doc, job.pageIndex, job.targetWidth, job.targetHeight, job.rotation).value;
            Cache.Entry(CacheKeyOf(job, invert), Finished(raw, invert)) in t.w.cache && Cache.DistinctKeys(t.w.cache)
  {
    hide Leads, Cache.Inserted, Finished, Cache.Size, ShutdownSeen;
    var raw := cfg.render(doc, job.pageIndex, job.targetWidth, job.targetHeight, job.rotation).value;
    var s1 := PageIsRendered(cfg, s, job, invert, doc, raw);
    t := AfterRenderStep(cfg, s1, job, invert, doc, raw);
    hide AfterRenderStep;
    OneStep(cfg, s1, DoAfterRender, t);
    hide Next;
    LeadsOn(cfg, s, s1, t);
    AfterRenderCaches(cfg, s1, job, invert, doc, raw);
  }

  lemma PageIsRendered(cfg: Config, s: State, job: RenderJob, invert: bool, doc: Document, raw: RawBitmap)
    returns (t: State)
    requires s.w.pc == LookUp(job, invert) && s.w.cache == [] && s.w.docs == [(job.documentId, doc)]
    requires cfg.render(doc, job.pageIndex, job.targetWidth, job.targetHeight, job.rotation) == Some(raw)
    ensures Leads(cfg, s, t) && t == s.(w := s.w.(docs := t.w.docs, pc := AfterRender(job, invert, doc, raw)))
  {
    var s1 := LookUpStep(s, job, invert);
    assert s1 == s.(w := s.w.(docs := s1.w.docs, pc := Rendering(job, invert, doc)));
    t := s1.(w := s1.w.(pc := AfterRender(job, invert, doc, raw)));
    hide Leads, LookUpStep;
    LookUpIsNext(cfg, s, job, invert);
    assert t == RenderStep(cfg, s1, job, invert, doc);
    hide RenderStep;
    OneStep(cfg, s1, DoRender, t);
    hide Next;
    LeadsOn(cfg, s, s1, t);
  }

  lemma AfterRenderCaches(cfg: Config, s: State, job: RenderJob, invert: bool, doc: Document, raw: RawBitmap)
    requires !ShutdownSeen(s.l) && job.kind == Page && s.w.cache == []
    requires Cache.Size(Finished(raw, invert)) <= cfg.budget
    ensures var t := AfterRenderStep(cfg, s, job, invert, doc, raw);
            && t.q == s.q && t.p == s.p && t.l == s.l
            && t.w.pc.Emit? && t.w.pc.emitStage.EmitCheck? && t.w.pc.route.PageRoute? && t.w.pc.forJob == Some(job)
            && t.e.events == s.e.events && t.e.critical == s.e.critical && t.w.content == s.w.content
            && Cache.Entry(CacheKeyOf(job, invert), Finished(raw, invert)) in t.w.cache && Cache.DistinctKeys(t.w.cache)
  {
    hide Finished;
    Cache.InsertedIsConsistent([], cfg.budget, CacheKeyOf(job, invert), Finished(raw, invert));
    hide Cache.Inserted;
  }

  /** The event of a page is delivered and the job is finished. */
  lemma PageIsReported(cfg: Config, s: State, job: RenderJob) returns (t: State)
    requires Calm(s) && s.w.pc.Emit? && s.w.pc.emitStage.EmitCheck? && s.w.pc.route.PageRoute?
    requires s.w.pc.forJob == Some(job)
    requires |s.e.events| < EVENT_CAPACITY
    ensures Leads(cfg, s, t) && Ready(t) && Calm(t) && SameData(s, t) && t.l == s.l
  {
    var s1 := EmitCheckStep(s);
    var s2 := EmitSendStep(s1);
    assert s2.w == s.w.(pc := FinishWait(job, true)) && s2.q == s.q && s2.p == s.p && s2.l == s.l;
    assert s2.e.critical == s.e.critical;
    hide Leads, KeyOf;
    OneStep(cfg, s, DoEmitCheck, s1);
    OneStep(cfg, s1, DoEmitSend, s2);
    hide EmitCheckStep, EmitSendStep;
    var s3 := s2.(p := s2.p.(lock := Removing), w := s2.w.(pc := FinishLocked(job, true)));
    t := NextCommand(s3.(p := s3.p.(pending := s3.p.pending - {KeyOf(job)}, lock := Free)));
    OneStep(cfg, s2, DoFinishAcquire, s3);
    OneStep(cfg, s3, DoFinishRemove, t);
    hide Next;
    LeadsOn(cfg, s, s1, s2);
    LeadsOn(cfg, s, s2, s3);
    LeadsOn(cfg, s, s3, t);
  }

  /** The only opens of the run are those of the listed steps. */
  ghost predicate OpensAt(steps: seq<Step>, opens: set<nat>) {
    forall i: nat :: i < |steps| ==> (steps[i].DoOpen? <==> i in opens)
  }

  lemma RunGoesOnTo(cfg: Config, run: seq<State>, steps: seq<Step>, opens: set<nat>, u: State)
    returns (longer: seq<State>, more: seq<Step>)
    requires IsRun(cfg, run, steps) && OpensAt(steps, opens) && Leads(cfg, run[|steps|], u)
    requires forall i :: i in opens ==> i < |steps|
    ensures IsRun(cfg, longer, more) && run <= longer && steps <= more && longer[|more|] == u && OpensAt(more, opens)
  {
    var states, rest :| IsWay(cfg, states, rest, run[|steps|], u);
    RunExtends(cfg, run, steps, states, rest);
    longer, more := run + states[1..], steps + rest;
    hide IsRun, Chain;
    forall i: nat | |steps| <= i < |more| ensures !more[i].DoOpen? {
      assert more[i] == rest[i - |steps|];
    }
  }

  lemma RunOpens(cfg: Config, run: seq<State>, steps: seq<Step>, opens: set<nat>, t: State)
    returns (longer: seq<State>, more: seq<Step>)
    requires IsRun(cfg, run, steps) && OpensAt(steps, opens) && Next(cfg, run[|steps|], DoOpen, t)
    requires forall i :: i in opens ==> i < |steps|
    ensures IsRun(cfg, longer, more) && run <= longer && longer[|more|] == t
    ensures more == steps + [DoOpen] && OpensAt(more, opens + {|steps|})
  {
    hide Next;
    var states := [run[|steps|], t];
    assert Chain(cfg, states, [DoOpen]);
    RunExtends(cfg, run, steps, states, [DoOpen]);
    longer, more := run + states[1..], steps + [DoOpen];
  }

  /** The way from the first open of an identifier to the second, with a bitmap of the first document in the cache. */
  lemma SecondOpenArrives(cfg: Config, s: State, id: DocumentId, first: Source, second: Source, k: CacheKey,
      raw: RawBitmap)
    returns (t: State)
    requires Calm(s) && s.w.docs == [] && s.w.cache == [] && s.w.content == map[] && s.e.events == []
    requires s.e.critical == []
    requires k.documentId == id && !k.invertColors && cfg.open(first).Some? && Cache.Size(raw) <= cfg.budget
    requires cfg.render(cfg.open(first).value, k.pageIndex, k.targetWidth, k.targetHeight, k.rotation) == Some(raw)
    ensures Leads(cfg, OpenStep(cfg, s, id, first), t) && Calm(t)
    ensures t.w.pc.Dispatch? && t.w.pc.command == OpenDocument(id, second)
    ensures Cache.Entry(k, raw) in t.w.cache && Cache.DistinctKeys(t.w.cache)
  {
    var (s0, doc) := (OpenStep(cfg, s, id, first), cfg.open(first).value);
    OpenStarts(cfg, s, id, first);
    assert s0.w.docs == [(id, doc)] && s0.w.content == map[id := doc];
    hide OpenStep, Leads, Cache.Size;
    var s1 := OpenIsReported(cfg, s0);
    var s2 := JobIsServed(cfg, s1, k);
    var job := FreshJob(s1, k);
    assert Finished(raw, false) == raw && CacheKeyOf(job, false) == k;
    hide CacheKeyOf, Finished;
    var s3 := RenderIsCached(cfg, s2, job, false, doc);
    hide FreshJob, PutDoc;
    var s4 := PageIsReported(cfg, s3, job);
    t := OpenArrives(cfg, s4, id, second);
    LeadsOn(cfg, s0, s1, s2);
    LeadsOn(cfg, s0, s2, s3);
    LeadsOn(cfg, s0, s3, s4);
    LeadsOn(cfg, s0, s4, t);
  }

  lemma OpenIsNext(cfg: Config, s: State, id: DocumentId, source: Source)
    requires s.w.pc.Dispatch? && s.w.pc.command == OpenDocument(id, source)
    ensures Next(cfg, s, DoOpen, OpenStep(cfg, s, id, source)) && Opens(s, DoOpen, id)
  {
    hide OpenStep;
  }

  /**
   * The promise needs the condition: two opens of one identifier without a close, for documents of which
   * the second does not render like the first, can end in a bitmap that is wrong for its document.
   */
  lemma OpenedTwiceShowsWrongBitmap(cfg: Config, id: DocumentId, first: Source, second: Source, k: CacheKey,
      raw: RawBitmap)
    returns (run: seq<State>, steps: seq<Step>, i: nat, j: nat, em: Emission)
    requires k.documentId == id && !k.invertColors && cfg.open(first).Some? && cfg.open(second).Some?
    requires cfg.render(cfg.open(first).value, k.pageIndex, k.targetWidth, k.targetHeight, k.rotation) == Some(raw)
    requires Cache.Size(raw) <= cfg.budget && !EntryRight(cfg, cfg.open(second).value, Cache.Entry(k, raw))
    ensures IsRun(cfg, run, steps) && i < j < |steps| && OpensAt(steps, {i, j})
    ensures Opens(run[i], steps[i], id) && Opens(run[j], steps[j], id)
    ensures em in run[|steps|].w.emissions && !Right(cfg, em)
  {
    hide Leads, EntryRight, Right, Cache.Size, OpenStep, Next;
    assert IsRun(cfg, [Initial()], []);
    var s1 := OpenArrives(cfg, Initial(), id, first);
    run, steps := RunGoesOnTo(cfg, [Initial()], [], {}, s1);
    i := |steps|;
    hide IsRun, OpensAt, Cache.DistinctKeys;
    OpenIsNext(cfg, s1, id, first);
    run, steps := RunOpens(cfg, run, steps, {}, OpenStep(cfg, s1, id, first));
    var s2 := SecondOpenArrives(cfg, s1, id, first, second, k, raw);
    run, steps := RunGoesOnTo(cfg, run, steps, {i}, s2);
    j := |steps|;
    OpenIsNext(cfg, s2, id, second);
    run, steps := RunOpens(cfg, run, steps, {i}, OpenStep(cfg, s2, id, second));
    var u;
    u, em := WrongBitmapIsShown(cfg, s2, id, second, Cache.Entry(k, raw));
    run, steps := RunGoesOnTo(cfg, run, steps, {i, j}, u);
  }

  /** Document 0 is a black pixel, every other document a white one. */
  function Pixel(doc: Document): RawBitmap {
    RawBitmap(1, 1, if doc == 0 then [0, 0, 0, 255] else [255, 255, 255, 255])
  }

  function Pixels(): Config {
    Config((source: Source) => Some(source),
      (doc: Document, page: PageIndex, w: nat, h: nat, rotation: Rotation) => Some(Pixel(doc)), 4)
  }

  lemma BlackIsNotWhite(k: CacheKey)
    requires !k.invertColors
    ensures !EntryRight(Pixels(), 1, Cache.Entry(k, Pixel(0)))
  {
    var b := Pixel(0);
    assert b.pixels[0] == 0 && Pixel(1).pixels[0] == 255;
    forall w, h ensures !Shows(Pixels(), 1, k.pageIndex, w, h, k.rotation, false, b) {}
  }

  /** A run of one black and one white document that ends in the black one shown for the white one. */
  lemma BlackIsShownForWhite() returns (run: seq<State>, steps: seq<Step>, i: nat, j: nat, em: Emission)
    ensures IsRun(Pixels(), run, steps) && i < j < |steps| && OpensAt(steps, {i, j})
    ensures Opens(run[i], steps[i], 7) && Opens(run[j], steps[j], 7)
    ensures em in run[|steps|].w.emissions && !Right(Pixels(), em)
  {
    var k := CacheKey(7, 0, 1, 1, Degrees0, false);
    BlackIsNotWhite(k);
    hide IsRun, OpensAt, Opens, Right, EntryRight;
    run, steps, i, j, em := OpenedTwiceShowsWrongBitmap(Pixels(), 7, 0, 1, k, Pixel(0));
  }
}
