// What an open document is good for: it stays open while fewer than sixteen others are used, and a
// current request for one of its pages is answered.

module OpenDocuments {
  import opened Wrappers
  import opened Limits
  import opened RenderTypes
  import opened RenderPipeline
  import opened EmittedBitmaps
  import opened Bitmap
  import Cache

  type Docs = seq<(DocumentId, Document)>

  // The list of open documents

  /** What a step does to the list. */
  datatype Move = Stay | Put(id: DocumentId, doc: Document) | Pop(id: DocumentId) | Promote(id: DocumentId)

  function AfterMove(docs: Docs, m: Move): Docs {
    match m
    case Stay => docs
    case Put(id, doc) => PutDoc(docs, id, doc)
    case Pop(id) => PopDoc(docs, id)
    case Promote(id) => Promoted(docs, id)
  }

  /** A look-up that finds no cached bitmap goes on to the document. */
  predicate Misses(s: State, job: RenderJob, invert: bool) {
    && Cache.Find(s.w.cache, CacheKeyOf(job, invert)) == |s.w.cache|
    && Cache.LargerCompatible(s.w.cache, job.documentId, job.pageIndex, job.rotation, invert, job.targetWidth,
         job.targetHeight) == None
  }

  function MoveOf(cfg: Config, s: State, step: Step): Move {
    match step
    case DoOpen =>
      if s.w.pc.Dispatch? && s.w.pc.command.OpenDocument? && cfg.open(s.w.pc.command.source).Some?
      then Put(s.w.pc.command.id, cfg.open(s.w.pc.command.source).value) else Stay
    case DoClose => if s.w.pc.Dispatch? && s.w.pc.command.CloseDocument? then Pop(s.w.pc.command.id) else Stay
    case DoQuery(outcome) =>
      if s.w.pc.Dispatch? && s.w.pc.command.RunQuery? && !outcome.StaleAtStart? then Promote(s.w.pc.command.id)
        else Stay
    case DoLookUp =>
      if s.w.pc.LookUp? && Misses(s, s.w.pc.job, s.w.pc.invert) then Promote(s.w.pc.job.documentId) else Stay
    case _ => Stay
  }

  /** The document the step opens or uses. */
  function UsedBy(m: Move): set<DocumentId> {
    match m
    case Put(id, _) => {id}
    case Promote(id) => {id}
    case _ => {}
  }

  // Every step is a move

  lemma CallerKeepsWorker(cfg: Config, s: State, step: Step, t: State)
    requires Next(cfg, s, step, t) && CallerStep(step)
    ensures t.w == s.w && t.e.produced == s.e.produced
  {
    hide KeyOf;
  }

  lemma EmitKeepsDocs(s: State)
    requires s.w.pc.Emit?
    ensures EmitCheckStep(s).w.docs == s.w.docs && EmitSendStep(s).w.docs == s.w.docs
  {
    var (event, forJob) := (s.w.pc.event, s.w.pc.forJob);
    AfterEmitKeepsDocs(Abandon(Consume(s), event), forJob, false);
    AfterEmitKeepsDocs(Abandon(s, event), forJob, false);
    AfterEmitKeepsDocs(s.(e := PutCritical(s.e, event)), forJob, true);
    AfterEmitKeepsDocs(s.(e := PutEvent(s.e, event)), forJob, true);
    AfterEmitKeepsDocs(s.(e := s.e.(dropped := s.e.dropped + multiset{event})), forJob, true);
    hide AfterEmit;
  }

  lemma AfterEmitKeepsDocs(s: State, forJob: Option<RenderJob>, ok: bool)
    ensures AfterEmit(s, forJob, ok).w.docs == s.w.docs
  {
    hide WaitAtCall;
  }

  lemma LookUpMovesDocs(s: State, job: RenderJob, invert: bool)
    ensures LookUpStep(s, job, invert).w.docs
         == if Misses(s, job, invert) then Promoted(s.w.docs, job.documentId) else s.w.docs
  {
    hide Cache.Find, Cache.Touched, Cache.LargerCompatible;
  }

  lemma RenderKeepsDocs(cfg: Config, s: State, job: RenderJob, invert: bool, doc: Document, raw: RawBitmap)
    ensures RenderStep(cfg, s, job, invert, doc).w.docs == s.w.docs
    ensures AfterRenderStep(cfg, s, job, invert, doc, raw).w.docs == s.w.docs
  {
    hide Cache.Inserted, Finished;
  }

  lemma CommandMovesDocs(cfg: Config, s: State, c: Command, outcome: QueryOutcome)
    ensures c.OpenDocument? ==>
              OpenStep(cfg, s, c.id, c.source).w.docs
              == if cfg.open(c.source).Some? then PutDoc(s.w.docs, c.id, cfg.open(c.source).value) else s.w.docs
    ensures c.CloseDocument? ==> CloseStep(s, c.id).w.docs == PopDoc(s.w.docs, c.id)
    ensures c.RunQuery? ==>
              QueryStep(s, c.query, c.id, outcome).w.docs
              == if outcome.StaleAtStart? then s.w.docs else Promoted(s.w.docs, c.id)
  {
    hide Cache.WithoutDocument, PopDoc, PutDoc, WaitAtCall;
  }

  lemma StepMovesDocs(cfg: Config, s: State, step: Step, t: State)
    requires Next(cfg, s, step, t)
    ensures t.w.docs == AfterMove(s.w.docs, MoveOf(cfg, s, step))
  {
    hide LookUpStep, RenderStep, AfterRenderStep, OpenStep, CloseStep, QueryStep, EmitCheckStep, EmitSendStep,
      AfterEmit, ReceiveStep, KeyOf, Misses, PutDoc, PopDoc, Promoted;
    var pc := s.w.pc;
    if CallerStep(step) {
      CallerKeepsWorker(cfg, s, step, t);
      hide Next;
    } else {
      match step {
        case DoReceive => ReceiveKeepsDocs(s);
        case DoEmitCheck => EmitKeepsDocs(s);
        case DoEmitSend => EmitKeepsDocs(s);
        case DoEmitShutdown => AfterEmitKeepsDocs(Abandon(Consume(s), pc.event), pc.forJob, false);
        case DoLookUp => LookUpMovesDocs(s, pc.job, pc.invert);
        case DoRender => RenderKeepsDocs(cfg, s, pc.job, pc.invert, pc.document, RawBitmap(0, 0, []));
        case DoAfterRender => RenderKeepsDocs(cfg, s, pc.job, pc.invert, pc.document, pc.raw);
        case DoQuery(outcome) => CommandMovesDocs(cfg, s, pc.command, outcome);
        case DoOpen => CommandMovesDocs(cfg, s, pc.command, Answer);
        case DoClose => CommandMovesDocs(cfg, s, pc.command, Answer);
        case _ =>
      }
    }
  }

  lemma ReceiveKeepsDocs(s: State)
    requires s.w.pc.Receive?
    ensures ReceiveStep(s).w.docs == s.w.docs
  {
    hide TakeControl, TakeVisible, TakeLow;
  }

  // The order of use

  lemma MoveKeepsOnce(docs: Docs, m: Move)
    requires OnceEach(docs)
    ensures OnceEach(AfterMove(docs, m))
  {
    match m {
      case Stay =>
      case Pop(id) => PopDocRemoves(docs, id);
      case Put(id, doc) => PutKeepsOnce(docs, id, doc);
      case Promote(id) => PromoteKeepsOnce(docs, id);
    }
    hide OnceEach, PutDoc, PopDoc, Promoted;
  }

  lemma PutKeepsOnce(docs: Docs, id: DocumentId, doc: Document)
    requires OnceEach(docs)
    ensures OnceEach(PutDoc(docs, id, doc))
  {
    PopDocRemoves(docs, id);
    var rest := PopDoc(docs, id);
    var kept := if |rest| >= MAX_OPEN_TABS then rest[..MAX_OPEN_TABS - 1] else rest;
    OncePrefix(rest, |kept|);
    hide PopDoc, OnceEach, FindDoc;
    assert kept == rest[..|kept|];
    FrontDoc((id, doc), kept);
  }

  lemma OncePrefix(docs: Docs, n: nat)
    requires n <= |docs| && OnceEach(docs)
    ensures OnceEach(docs[..n])
    ensures forall d :: d in docs[..n] ==> d in docs
  {}

  lemma PromoteKeepsOnce(docs: Docs, id: DocumentId)
    requires OnceEach(docs)
    ensures OnceEach(Promoted(docs, id))
  {
    if FindDoc(docs, id) < |docs| {
      PopDocRemoves(docs, id);
      FrontDoc(docs[FindDoc(docs, id)], PopDoc(docs, id));
    }
    hide PopDoc, OnceEach, FindDoc;
  }

  /** The document is in the list, and all before it were used after it. */
  predicate KeptAt(docs: Docs, id: DocumentId, doc: Document, others: set<DocumentId>, at: nat) {
    at < |docs| && docs[at] == (id, doc) && forall k :: 0 <= k < at ==> docs[k].0 in others
  }

  ghost predicate Kept(docs: Docs, id: DocumentId, doc: Document, others: set<DocumentId>) {
    exists at :: KeptAt(docs, id, doc, others, at)
  }

  /** Distinct identifiers from a set are no more than the set has. */
  lemma {:induction false} DistinctBound(docs: Docs, n: nat, others: set<DocumentId>)
    requires n <= |docs| && OnceEach(docs) && forall k :: 0 <= k < n ==> docs[k].0 in others
    ensures n <= |others|
  {
    if n > 0 {
      var rest := others - {docs[n - 1].0};
      forall k | 0 <= k < n - 1 ensures docs[k].0 in rest {}
      DistinctBound(docs, n - 1, rest);
    }
  }

  lemma PopKeeps(docs: Docs, x: DocumentId, id: DocumentId, doc: Document, others: set<DocumentId>, at: nat)
    returns (now: nat)
    requires KeptAt(docs, id, doc, others, at) && x != id && OnceEach(docs)
    ensures KeptAt(PopDoc(docs, x), id, doc, others - {x}, now)
  {
    hide PopDoc, OnceEach, FindDoc;
    var gone := FindDoc(docs, x);
    if gone == |docs| {
      now := at;
      NothingPopped(docs, x);
    } else if at < gone {
      now := at;
      PoppedAt(docs, x, at);
      forall k | 0 <= k < at ensures PopDoc(docs, x)[k].0 in others - {x} { PoppedAt(docs, x, k); }
    } else {
      now := at - 1;
      PoppedAt(docs, x, now);
      forall k | 0 <= k < now ensures PopDoc(docs, x)[k].0 in others - {x} { PoppedAt(docs, x, k); }
    }
  }

  lemma NothingPopped(docs: Docs, x: DocumentId)
    requires FindDoc(docs, x) == |docs|
    ensures PopDoc(docs, x) == docs
  {}

  lemma PoppedAt(docs: Docs, x: DocumentId, k: nat)
    requires FindDoc(docs, x) < |docs| && k < |docs| - 1 && OnceEach(docs)
    ensures |PopDoc(docs, x)| == |docs| - 1
    ensures PopDoc(docs, x)[k] == docs[if k < FindDoc(docs, x) then k else k + 1] && PopDoc(docs, x)[k].0 != x
  {}

  lemma PutKeeps(docs: Docs, x: DocumentId, d: Document, id: DocumentId, doc: Document, others: set<DocumentId>,
      at: nat)
    requires KeptAt(docs, id, doc, others, at) && x != id && OnceEach(docs) && |others + {x}| < MAX_OPEN_TABS
    ensures Kept(PutDoc(docs, x, d), id, doc, others + {x})
  {
    var now := PopKeeps(docs, x, id, doc, others, at);
    var rest := PopDoc(docs, x);
    PopDocRemoves(docs, x);
    DistinctBound(rest, now, others - {x});
    assert others + {x} == (others - {x}) + {x};
    hide PopDoc, OnceEach;
    var after := PutDoc(docs, x, d);
    assert after[now + 1] == rest[now];
    forall k | 0 <= k < now + 1 ensures after[k].0 in others + {x} {
      if k > 0 { assert after[k] == rest[k - 1]; }
    }
    assert KeptAt(after, id, doc, others + {x}, now + 1);
  }

  lemma PromoteKeeps(docs: Docs, x: DocumentId, id: DocumentId, doc: Document, others: set<DocumentId>, at: nat)
    requires KeptAt(docs, id, doc, others, at) && OnceEach(docs)
    ensures Kept(Promoted(docs, x), id, doc, others + ({x} - {id}))
  {
    var found := FindDoc(docs, x);
    var after := Promoted(docs, x);
    if found == |docs| {
      assert KeptAt(after, id, doc, others + ({x} - {id}), at);
    } else if x == id {
      assert found == at;
      assert KeptAt(after, id, doc, others + ({x} - {id}), 0);
    } else {
      var now := PopKeeps(docs, x, id, doc, others, at);
      var rest := PopDoc(docs, x);
      hide PopDoc, OnceEach;
      assert after == [docs[found]] + rest;
      assert {x} - {id} == {x} && docs[found].0 == x && (others - {x}) <= others;
      forall k | 0 <= k < now + 1 ensures after[k].0 in others + {x} {
        if k > 0 { assert after[k] == rest[k - 1]; }
      }
      assert KeptAt(after, id, doc, others + {x}, now + 1);
    }
  }

  /** Nothing but a close, another open of the identifier and sixteen others ends the stay of a document. */
  lemma MoveKeeps(docs: Docs, m: Move, id: DocumentId, doc: Document, others: set<DocumentId>)
    requires Kept(docs, id, doc, others) && OnceEach(docs) && m != Pop(id) && !(m.Put? && m.id == id)
    requires |others + (UsedBy(m) - {id})| < MAX_OPEN_TABS
    ensures Kept(AfterMove(docs, m), id, doc, others + (UsedBy(m) - {id}))
  {
    hide OnceEach, PutDoc, PopDoc, Promoted, KeptAt;
    var at: nat :| KeptAt(docs, id, doc, others, at);
    match m {
      case Stay => assert others + (UsedBy(m) - {id}) == others;
      case Put(x, d) =>
        assert UsedBy(m) - {id} == {x};
        PutKeeps(docs, x, d, id, doc, others, at);
      case Promote(x) =>
        assert UsedBy(m) - {id} == {x} - {id};
        PromoteKeeps(docs, x, id, doc, others, at);
      case Pop(x) =>
        var now := PopKeeps(docs, x, id, doc, others, at);
        KeptByMore(PopDoc(docs, x), id, doc, others - {x}, others, now);
        assert others + (UsedBy(m) - {id}) == others;
    }
  }

  lemma KeptByMore(docs: Docs, id: DocumentId, doc: Document, others: set<DocumentId>, more: set<DocumentId>, at: nat)
    requires KeptAt(docs, id, doc, others, at) && others <= more
    ensures KeptAt(docs, id, doc, more, at)
  {}

  // Whole runs

  /** The other documents opened or used by the steps from `i` to before `j`. */
  function OthersUsed(cfg: Config, run: seq<State>, steps: seq<Step>, i: nat, j: nat, id: DocumentId): set<DocumentId>
    requires i <= j <= |steps| < |run|
  {
    if i == j then {}
    else OthersUsed(cfg, run, steps, i, j - 1, id) + (UsedBy(MoveOf(cfg, run[j - 1], steps[j - 1])) - {id})
  }

  /** The identifier stands for the document in the list. */
  predicate IsOpen(docs: Docs, id: DocumentId, doc: Document) {
    FindDoc(docs, id) < |docs| && docs[FindDoc(docs, id)].1 == doc
  }

  /** The identifier is neither closed nor opened anew by the step. */
  predicate LeavesAlone(cfg: Config, s: State, step: Step, id: DocumentId) {
    var m := MoveOf(cfg, s, step);
    m != Pop(id) && !(m.Put? && m.id == id)
  }

  lemma RunGoes(cfg: Config, run: seq<State>, steps: seq<Step>, i: nat)
    requires IsRun(cfg, run, steps) && i < |steps|
    ensures |run| == |steps| + 1 && Next(cfg, run[i], steps[i], run[i + 1])
  {
    hide Next;
  }

  lemma {:induction false} OnceAlways(cfg: Config, run: seq<State>, steps: seq<Step>, i: nat)
    requires IsRun(cfg, run, steps) && i < |run|
    ensures OnceEach(run[i].w.docs)
  {
    hide *;
    RunLength(cfg, run, steps);
    if i > 0 {
      OnceAlways(cfg, run, steps, i - 1);
      RunGoes(cfg, run, steps, i - 1);
      StepMovesDocs(cfg, run[i - 1], steps[i - 1], run[i]);
      MoveKeepsOnce(run[i - 1].w.docs, MoveOf(cfg, run[i - 1], steps[i - 1]));
    } else {
      NoneOpen(cfg, run, steps);
    }
  }

  lemma NoneOpen(cfg: Config, run: seq<State>, steps: seq<Step>)
    requires IsRun(cfg, run, steps)
    ensures |run| > 0 && OnceEach(run[0].w.docs)
  {
    hide Next;
  }

  lemma FewerUsed(cfg: Config, run: seq<State>, steps: seq<Step>, i: nat, j: nat, id: DocumentId)
    requires i < j <= |steps| < |run|
    ensures OthersUsed(cfg, run, steps, i, j - 1, id) <= OthersUsed(cfg, run, steps, i, j, id)
    ensures |OthersUsed(cfg, run, steps, i, j - 1, id)| <= |OthersUsed(cfg, run, steps, i, j, id)|
  {
    hide MoveOf, UsedBy;
    SubsetIsSmaller(OthersUsed(cfg, run, steps, i, j - 1, id), OthersUsed(cfg, run, steps, i, j, id));
  }

  lemma MoreUsed(cfg: Config, run: seq<State>, steps: seq<Step>, i: nat, j: nat, id: DocumentId)
    requires i < j <= |steps| < |run|
    ensures OthersUsed(cfg, run, steps, i, j, id)
         == OthersUsed(cfg, run, steps, i, j - 1, id) + (UsedBy(MoveOf(cfg, run[j - 1], steps[j - 1])) - {id})
  {}

  lemma NoneUsed(cfg: Config, run: seq<State>, steps: seq<Step>, i: nat, id: DocumentId)
    requires i <= |steps| < |run|
    ensures OthersUsed(cfg, run, steps, i, i, id) == {}
  {}

  lemma LeftAlone(cfg: Config, s: State, step: Step, id: DocumentId)
    requires LeavesAlone(cfg, s, step, id)
    ensures var m := MoveOf(cfg, s, step);
            m != Pop(id) && !(m.Put? && m.id == id)
  {}

  lemma SubsetIsSmaller(a: set<DocumentId>, b: set<DocumentId>)
    requires a <= b
    ensures |a| <= |b|
  {
    assert b == a + (b - a);
  }

  lemma {:induction false} KeptInRun(cfg: Config, run: seq<State>, steps: seq<Step>, i: nat, j: nat, id: DocumentId,
      doc: Document)
    requires IsRun(cfg, run, steps) && |run| == |steps| + 1 && i <= j < |run|
    requires Kept(run[i].w.docs, id, doc, {})
    requires forall k :: i <= k < j ==> LeavesAlone(cfg, run[k], steps[k], id)
    requires |OthersUsed(cfg, run, steps, i, j, id)| < MAX_OPEN_TABS
    ensures Kept(run[j].w.docs, id, doc, OthersUsed(cfg, run, steps, i, j, id))
  {
    hide *;
    if i < j {
      FewerUsed(cfg, run, steps, i, j, id);
      KeptInRun(cfg, run, steps, i, j - 1, id, doc);
      OnceAlways(cfg, run, steps, j - 1);
      RunGoes(cfg, run, steps, j - 1);
      StepMovesDocs(cfg, run[j - 1], steps[j - 1], run[j]);
      LeftAlone(cfg, run[j - 1], steps[j - 1], id);
      MoreUsed(cfg, run, steps, i, j, id);
      MoveKeeps(run[j - 1].w.docs, MoveOf(cfg, run[j - 1], steps[j - 1]), id, doc,
        OthersUsed(cfg, run, steps, i, j - 1, id));
    } else {
      NoneUsed(cfg, run, steps, i, id);
    }
  }

  lemma KeptIsOpen(docs: Docs, id: DocumentId, doc: Document, others: set<DocumentId>)
    requires Kept(docs, id, doc, others) && OnceEach(docs)
    ensures IsOpen(docs, id, doc)
  {
    var at: nat :| KeptAt(docs, id, doc, others, at);
    assert FindDoc(docs, id) == at;
  }

  /**
   * The most recently used document is still open later, whatever the run does, if it was not closed or
   * opened anew since and fewer than sixteen others were opened or used.
   */
  lemma UsedStaysOpen(cfg: Config, run: seq<State>, steps: seq<Step>, i: nat, j: nat, id: DocumentId, doc: Document)
    requires IsRun(cfg, run, steps) && |run| == |steps| + 1 && i <= j < |run|
    requires run[i].w.docs != [] && run[i].w.docs[0] == (id, doc)
    requires forall k :: i <= k < j ==> LeavesAlone(cfg, run[k], steps[k], id)
    requires |OthersUsed(cfg, run, steps, i, j, id)| < MAX_OPEN_TABS
    ensures IsOpen(run[j].w.docs, id, doc)
  {
    assert KeptAt(run[i].w.docs, id, doc, {}, 0);
    hide IsRun, LeavesAlone, KeptAt, OthersUsed, OnceEach, IsOpen;
    KeptInRun(cfg, run, steps, i, j, id, doc);
    OnceAlways(cfg, run, steps, j);
    KeptIsOpen(run[j].w.docs, id, doc, OthersUsed(cfg, run, steps, i, j, id));
  }

  /** An open that succeeds and a use put the document in front. */
  lemma UseComesFirst(cfg: Config, s: State, step: Step, t: State, id: DocumentId, doc: Document)
    requires Next(cfg, s, step, t)
    requires var m := MoveOf(cfg, s, step);
             m == Put(id, doc) || (m == Promote(id) && IsOpen(s.w.docs, id, doc))
    ensures t.w.docs != [] && t.w.docs[0] == (id, doc)
  {
    StepMovesDocs(cfg, s, step, t);
    hide Next, MoveOf, PopDoc;
  }

  // One request

  /** The worker is at the job, past the check of its generation. */
  predicate AtJob(pc: Pc, job: RenderJob) {
    (pc.LoadInvert? || pc.LookUp? || pc.Rendering? || pc.AfterRender?) && pc.job == job
  }

  /** What the worker knows of the job on its document. */
  predicate OnDocument(cfg: Config, w: Worker, job: RenderJob, doc: Document) {
    && IsOpen(w.docs, job.documentId, doc)
    && (w.pc.Rendering? ==> w.pc.document == doc)
    && (w.pc.AfterRender? ==> w.pc.document == doc && Rendered(cfg, job, doc) == Some(w.pc.raw))
  }

  function Rendered(cfg: Config, job: RenderJob, doc: Document): Option<RawBitmap> {
    cfg.render(doc, job.pageIndex, job.targetWidth, job.targetHeight, job.rotation)
  }

  /** A bitmap for the job is emitted, and its event produced. */
  ghost predicate Answers(s: State, t: State, job: RenderJob) {
    exists em: Emission ::
      && em.job == job && t.w.emissions == s.w.emissions + [em]
      && t.e.produced == s.e.produced + [Event(|s.e.produced|, PageRendered(job, em.bitmap))]
  }

  /** An error for the document is reported, and no bitmap. */
  predicate Fails(s: State, t: State, id: DocumentId) {
    && t.w.emissions == s.w.emissions
    && t.e.produced == s.e.produced + [Event(|s.e.produced|, Error(id))]
  }

  lemma PromotedIsOpen(docs: Docs, id: DocumentId, doc: Document)
    requires IsOpen(docs, id, doc)
    ensures IsOpen(Promoted(docs, id), id, doc)
  {
    hide PopDoc;
  }

  lemma LookUpAnswers(cfg: Config, s: State, job: RenderJob, invert: bool, doc: Document)
    requires s.w.pc == LookUp(job, invert) && OnDocument(cfg, s.w, job, doc)
    ensures var t := LookUpStep(s, job, invert);
            if Misses(s, job, invert) then t.w.pc == Rendering(job, invert, doc) && OnDocument(cfg, t.w, job, doc)
            else !AtJob(t.w.pc, job) && Answers(s, t, job)
  {
    hide Cache.Find, Cache.Touched, Cache.LargerCompatible, Promoted, FindDoc;
    PromotedIsOpen(s.w.docs, job.documentId, doc);
    var t := LookUpStep(s, job, invert);
    if !Misses(s, job, invert) {
      var em := t.w.emissions[|t.w.emissions| - 1];
      assert t.w.emissions == s.w.emissions + [em] && em.job == job;
    }
  }

  lemma RenderAnswers(cfg: Config, s: State, job: RenderJob, invert: bool, doc: Document)
    requires s.w.pc == Rendering(job, invert, doc) && OnDocument(cfg, s.w, job, doc)
    ensures var t := RenderStep(cfg, s, job, invert, doc);
            if Rendered(cfg, job, doc).None? then !AtJob(t.w.pc, job) && Fails(s, t, job.documentId)
            else AtJob(t.w.pc, job) && OnDocument(cfg, t.w, job, doc)
  {
    hide FindDoc;
  }

  lemma AfterRenderAnswers(cfg: Config, s: State, job: RenderJob, invert: bool, doc: Document, raw: RawBitmap)
    ensures var t := AfterRenderStep(cfg, s, job, invert, doc, raw);
            !AtJob(t.w.pc, job) && (!ShutdownSeen(s.l) ==> Answers(s, t, job))
  {
    hide Finished, Cache.Inserted;
    var t := AfterRenderStep(cfg, s, job, invert, doc, raw);
    if !ShutdownSeen(s.l) {
      var em := t.w.emissions[|t.w.emissions| - 1];
      assert t.w.emissions == s.w.emissions + [em] && em.job == job;
    }
  }

  /** One step of the run while the worker is at the job. */
  lemma JobStep(cfg: Config, s: State, step: Step, t: State, job: RenderJob, doc: Document)
    requires Next(cfg, s, step, t) && AtJob(s.w.pc, job) && OnDocument(cfg, s.w, job, doc)
    ensures AtJob(t.w.pc, job) ==> OnDocument(cfg, t.w, job, doc)
    ensures !AtJob(t.w.pc, job) ==>
              || Answers(s, t, job)
              || (Rendered(cfg, job, doc).None? && Fails(s, t, job.documentId))
              || ShutdownSeen(s.l)
  {
    hide LookUpStep, RenderStep, AfterRenderStep, Answers, OpenStep, CloseStep, QueryStep, EmitCheckStep, EmitSendStep,
      AfterEmit, ReceiveStep, KeyOf, IsOpen, Misses, ShutdownSeen, Rendered;
    var pc := s.w.pc;
    if CallerStep(step) {
      CallerKeepsWorker(cfg, s, step, t);
      hide Next;
    } else {
      match step {
        case DoLoadInvert =>
        case DoLookUp => LookUpAnswers(cfg, s, job, pc.invert, doc);
        case DoRender => RenderAnswers(cfg, s, job, pc.invert, doc);
        case DoAfterRender => AfterRenderAnswers(cfg, s, job, pc.invert, doc, pc.raw);
        case _ =>
      }
    }
  }

  lemma {:induction false} AtJobOnDocument(cfg: Config, run: seq<State>, steps: seq<Step>, i: nat, j: nat,
      job: RenderJob, doc: Document)
    requires IsRun(cfg, run, steps) && i <= j < |run| && OnDocument(cfg, run[i].w, job, doc)
    requires forall k :: i <= k <= j ==> AtJob(run[k].w.pc, job)
    ensures OnDocument(cfg, run[j].w, job, doc)
  {
    hide *;
    RunLength(cfg, run, steps);
    if i < j {
      AtJobOnDocument(cfg, run, steps, i, j - 1, job, doc);
      RunGoes(cfg, run, steps, j - 1);
      JobStep(cfg, run[j - 1], steps[j - 1], run[j], job, doc);
    }
  }

  /** The worker takes up a current job. */
  predicate TakesUp(s: State, step: Step, job: RenderJob) {
    && step.DoLoadGeneration? && s.w.pc.Dispatch? && s.w.pc.command == RenderPage(job)
    && job.generation == s.p.generation
  }

  /**
   * A current job for an open document is answered: if no shutdown is seen when the worker leaves the job, a
   * bitmap for it was emitted, or its page does not render and an error was reported.
   */
  lemma CurrentJobIsAnswered(cfg: Config, run: seq<State>, steps: seq<Step>, i: nat, j: nat, job: RenderJob,
      doc: Document)
    requires IsRun(cfg, run, steps) && |run| == |steps| + 1 && i + 1 < j < |run| && TakesUp(run[i], steps[i], job)
    requires IsOpen(run[i].w.docs, job.documentId, doc)
    requires forall k :: i < k < j ==> AtJob(run[k].w.pc, job)
    requires !AtJob(run[j].w.pc, job) && !ShutdownSeen(run[j - 1].l)
    ensures Rendered(cfg, job, doc).None? ==>
              Answers(run[j - 1], run[j], job) || Fails(run[j - 1], run[j], job.documentId)
    ensures Rendered(cfg, job, doc).Some? ==> Answers(run[j - 1], run[j], job)
  {
    hide *;
    RunGoes(cfg, run, steps, i);
    TakenUp(cfg, run[i], steps[i], run[i + 1], job, doc);
    AtJobOnDocument(cfg, run, steps, i + 1, j - 1, job, doc);
    RunGoes(cfg, run, steps, j - 1);
    JobStep(cfg, run[j - 1], steps[j - 1], run[j], job, doc);
  }

  lemma TakenUp(cfg: Config, s: State, step: Step, t: State, job: RenderJob, doc: Document)
    requires Next(cfg, s, step, t) && TakesUp(s, step, job) && IsOpen(s.w.docs, job.documentId, doc)
    ensures AtJob(t.w.pc, job) && OnDocument(cfg, t.w, job, doc)
  {
    hide IsOpen, KeyOf, Rendered;
  }

  /** An open, a use of the document, and a current job for one of its pages. */
  lemma OpenedDocumentIsRendered(cfg: Config, run: seq<State>, steps: seq<Step>, o: nat, i: nat, j: nat, job: RenderJob,
      doc: Document)
    requires IsRun(cfg, run, steps) && |run| == |steps| + 1 && o < i && i + 1 < j < |run|
    requires MoveOf(cfg, run[o], steps[o]) == Put(job.documentId, doc)
    requires forall k :: o < k < i ==> LeavesAlone(cfg, run[k], steps[k], job.documentId)
    requires |OthersUsed(cfg, run, steps, o + 1, i, job.documentId)| < MAX_OPEN_TABS
    requires TakesUp(run[i], steps[i], job) && Rendered(cfg, job, doc).Some?
    requires forall k :: i < k < j ==> AtJob(run[k].w.pc, job)
    requires !AtJob(run[j].w.pc, job) && !ShutdownSeen(run[j - 1].l)
    ensures Answers(run[j - 1], run[j], job)
  {
    hide *;
    RunGoes(cfg, run, steps, o);
    UseComesFirst(cfg, run[o], steps[o], run[o + 1], job.documentId, doc);
    UsedStaysOpen(cfg, run, steps, o + 1, i, job.documentId, doc);
    CurrentJobIsAnswered(cfg, run, steps, i, j, job, doc);
  }

  // The answers of commands

  /** An open is answered by its event and puts the document in front, or by an error and changes no document. */
  lemma OpenIsAnswered(cfg: Config, s: State, t: State)
    requires Next(cfg, s, DoOpen, t)
    ensures s.w.pc.Dispatch? && s.w.pc.command.OpenDocument?
    ensures var (id, result) := (s.w.pc.command.id, cfg.open(s.w.pc.command.source));
            match result
            case Some(doc) =>
              && t.w.docs != [] && t.w.docs[0] == (id, doc)
              && t.e.produced == s.e.produced + [Event(|s.e.produced|, DocumentOpened(id))]
            case None => t.w.docs == s.w.docs && Fails(s, t, id)
  {
    hide PopDoc;
  }

  /** A query for an open document that the backend answers is answered, and reports its failure if it fails. */
  lemma QueryIsAnswered(cfg: Config, s: State, outcome: QueryOutcome, t: State, doc: Document)
    requires Next(cfg, s, DoQuery(outcome), t) && s.w.pc.Dispatch? && s.w.pc.command.RunQuery?
    requires IsOpen(s.w.docs, s.w.pc.command.id, doc) && (outcome.Answer? || outcome.Failure?)
    ensures var (query, id) := (s.w.pc.command.query, s.w.pc.command.id);
            if outcome.Failure? then Fails(s, t, id)
            else t.e.produced == s.e.produced + [Event(|s.e.produced|, QueryResult(query, id))]
  {
    hide Promoted;
  }

  // Bitmaps shown again

  /** A bitmap cached under the very key of a job is emitted without a render, and becomes the most recently used. */
  lemma CachedIsShownAgain(cfg: Config, s: State, t: State, job: RenderJob, invert: bool, e: Cache.Entry)
    requires Next(cfg, s, DoLookUp, t) && s.w.pc == LookUp(job, invert)
    requires Cache.DistinctKeys(s.w.cache) && e in s.w.cache && e.key == CacheKeyOf(job, invert)
    ensures |t.w.emissions| == |s.w.emissions| + 1 && t.w.emissions[|s.w.emissions|].bitmap == e.bitmap
    ensures Answers(s, t, job) && t.w.cache == [e] + Cache.OtherKeys(s.w.cache, e.key)
  {
    Cache.TouchedComesFirst(s.w.cache, e.key, e);
    var at := Cache.Find(s.w.cache, e.key);
    var i :| 0 <= i < |s.w.cache| && s.w.cache[i] == e;
    assert s.w.cache[at].key == s.w.cache[i].key;
    assert at == i;
    hide Cache.Find, Cache.Touched, Cache.LargerCompatible, Cache.OtherKeys, FindDoc, Promoted;
    var em := t.w.emissions[|s.w.emissions|];
    assert em.job == job && t.w.emissions == s.w.emissions + [em];
  }

  /** A rendered bitmap that is not oversized is cached under the key of its job, in front of all others. */
  lemma RenderedIsCached(cfg: Config, s: State, t: State)
    requires Next(cfg, s, DoAfterRender, t) && !ShutdownSeen(s.l) && Cache.Consistent(s.w.cache, cfg.budget)
    ensures s.w.pc.AfterRender? && t.w.emissions != []
    ensures var em := t.w.emissions[|t.w.emissions| - 1];
            Cache.Size(em.bitmap) <= cfg.budget ==>
              t.w.cache != [] && t.w.cache[0] == Cache.Entry(CacheKeyOf(s.w.pc.job, s.w.pc.invert), em.bitmap)
  {
    var (job, invert, raw) := (s.w.pc.job, s.w.pc.invert, s.w.pc.raw);
    hide Finished, Cache.Size, Cache.Consistent, Cache.Inserted, Cache.OtherKeys, Cache.IsLongestFit;
    var kept := Cache.InsertedComesFirst(s.w.cache, cfg.budget, CacheKeyOf(job, invert), Finished(raw, invert));
  }
}
