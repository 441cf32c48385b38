// The open tabs and the life of the document in each: opening, waiting for a password, ready or
// failed, with the last ready document kept to fall back on.

module Documents {
  import opened Wrappers
  import opened Limits

  type TabId = nat
  type DocumentId = nat
  type Path = nat
  type Instant = nat

  const U64_MAX := 0xFFFF_FFFF_FFFF_FFFF

  datatype ReadyDocument = ReadyDocument(id: DocumentId, path: Path, pageCount: nat, startedAt: Instant)

  datatype DocumentState =
    | Opening(id: DocumentId, path: Path, startedAt: Instant, active: Option<ReadyDocument>)
    | PasswordRequired(id: DocumentId, path: Path, startedAt: Instant, active: Option<ReadyDocument>)
    | Ready(document: ReadyDocument)
    | FailedToOpen(path: Path, active: Option<ReadyDocument>)

  datatype Tab = Tab(id: TabId, path: Option<Path>, document: Option<DocumentState>)

  /** The value of a `TabSet`. */
  datatype Tabs = Tabs(tabs: seq<Tab>, active: Option<TabId>, nextId: nat)

  /** The document a tab shows, or falls back on. */
  function LastReady(document: Option<DocumentState>): Option<ReadyDocument> {
    match document
    case None => None
    case Some(Ready(d)) => Some(d)
    case Some(Opening(_, _, _, active)) => active
    case Some(PasswordRequired(_, _, _, active)) => active
    case Some(FailedToOpen(_, active)) => active
  }

  /** Nothing to show and nothing to wait for. */
  predicate Blank(document: Option<DocumentState>) {
    document.None? || (document.value.FailedToOpen? && document.value.active == None)
  }

  predicate WaitsFor(document: Option<DocumentState>, id: DocumentId) {
    document.Some? && (document.value.Opening? || document.value.PasswordRequired?) && document.value.id == id
  }

  // Finding tabs

  function FindTab(tabs: seq<Tab>, id: TabId): (at: nat)
    ensures at <= |tabs|
    ensures at < |tabs| ==> tabs[at].id == id
    ensures forall i :: 0 <= i < at ==> tabs[i].id != id
  {
    if tabs == [] then 0 else if tabs[0].id == id then 0 else 1 + FindTab(tabs[1..], id)
  }

  function FindPath(tabs: seq<Tab>, path: Path): (at: nat)
    ensures at <= |tabs|
    ensures at < |tabs| ==> tabs[at].path == Some(path)
    ensures forall i :: 0 <= i < at ==> tabs[i].path != Some(path)
  {
    if tabs == [] then 0 else if tabs[0].path == Some(path) then 0 else 1 + FindPath(tabs[1..], path)
  }

  function FindPending(tabs: seq<Tab>, id: DocumentId): (at: nat)
    ensures at <= |tabs|
    ensures at < |tabs| ==> WaitsFor(tabs[at].document, id)
    ensures forall i :: 0 <= i < at ==> !WaitsFor(tabs[i].document, id)
  {
    if tabs == [] then 0 else if WaitsFor(tabs[0].document, id) then 0 else 1 + FindPending(tabs[1..], id)
  }

  /** The position of the active tab; the number of tabs if there is none. */
  function ActiveAt(v: Tabs): (at: nat)
    ensures at <= |v.tabs|
    ensures at < |v.tabs| ==> v.active == Some(v.tabs[at].id)
  {
    match v.active
    case None => |v.tabs|
    case Some(id) => FindTab(v.tabs, id)
  }

  // The operations on tabs

  datatype OpenTab = Existing(id: TabId) | Created(id: TabId) | Full

  predicate MayAdd(v: Tabs) {
    |v.tabs| < MAX_OPEN_TABS && v.nextId < U64_MAX
  }

  function Added(v: Tabs, path: Option<Path>): Tabs {
    var id := v.nextId + 1;
    Tabs(v.tabs + [Tab(id, path, None)], Some(id), id)
  }

  function OpenPath(v: Tabs, path: Path): (Tabs, OpenTab) {
    var (at, here) := (FindPath(v.tabs, path), ActiveAt(v));
    if at < |v.tabs| then (v.(active := Some(v.tabs[at].id)), Existing(v.tabs[at].id))
    else if here < |v.tabs| && v.tabs[here].path == None then
      (v.(tabs := v.tabs[here := v.tabs[here].(path := Some(path), document := None)]), Existing(v.tabs[here].id))
    else if MayAdd(v) then (Added(v, Some(path)), Created(v.nextId + 1))
    else (v, Full)
  }

  function Removed(tabs: seq<Tab>, at: nat): seq<Tab>
    requires at < |tabs|
  {
    tabs[..at] + tabs[at + 1..]
  }

  /** Closing the active tab makes its right neighbour active, or else its left one. */
  function Closed(v: Tabs, id: TabId): Tabs {
    var at := FindTab(v.tabs, id);
    if at == |v.tabs| then v
    else
      var rest := Removed(v.tabs, at);
      var active :=
        if v.active != Some(id) then v.active
        else if at < |rest| then Some(rest[at].id)
        else if at > 0 then Some(rest[at - 1].id)
        else None;
      v.(tabs := rest, active := active)
  }

  // The operations on documents

  datatype OpenTransition = Opened(document: ReadyDocument) | InvalidPageCount | Stale

  function WithDocument(v: Tabs, at: nat, document: Option<DocumentState>): Tabs
    requires at < |v.tabs|
  {
    v.(tabs := v.tabs[at := v.tabs[at].(document := document)])
  }

  function BegunOpen(v: Tabs, id: DocumentId, path: Path, startedAt: Instant): Tabs {
    var here := ActiveAt(v);
    var w := if here < |v.tabs| && v.tabs[here].path == Some(path) then v else OpenPath(v, path).0;
    var at := ActiveAt(w);
    if at == |w.tabs| then w
    else WithDocument(w, at, Some(Opening(id, path, startedAt, LastReady(w.tabs[at].document))))
  }

  function OpenedStep(v: Tabs, id: DocumentId, rawPageCount: nat, maxPageCount: nat): (Tabs, OpenTransition) {
    var at := FindPending(v.tabs, id);
    if at == |v.tabs| then (v, Stale)
    else
      var pending := v.tabs[at].document.value;
      if rawPageCount == 0 || rawPageCount > maxPageCount then
        (WithDocument(v, at, Some(FailedToOpen(pending.path, pending.active))), InvalidPageCount)
      else
        var ready := ReadyDocument(id, pending.path, rawPageCount, pending.startedAt);
        (WithDocument(v, at, Some(Ready(ready))), Opened(ready))
  }

  function PasswordAsked(v: Tabs, id: DocumentId): Tabs {
    var at := FindPending(v.tabs, id);
    if at == |v.tabs| then v
    else
      var pending := v.tabs[at].document.value;
      WithDocument(v, at, Some(PasswordRequired(id, pending.path, pending.startedAt, pending.active)))
  }

  function OpenFailed(v: Tabs, id: DocumentId): Tabs {
    var at := FindPending(v.tabs, id);
    if at == |v.tabs| then v
    else
      var pending := v.tabs[at].document.value;
      WithDocument(v, at, Some(FailedToOpen(pending.path, pending.active)))
  }

  function OpenCancelled(v: Tabs, id: DocumentId): Tabs {
    var at := FindPending(v.tabs, id);
    if at == |v.tabs| then v
    else
      var active := v.tabs[at].document.value.active;
      WithDocument(v, at, if active.Some? then Some(Ready(active.value)) else None)
  }

  function ActivePathFailed(v: Tabs, path: Path): Tabs {
    var at := ActiveAt(v);
    if at == |v.tabs| then v else WithDocument(v, at, Some(FailedToOpen(path, None)))
  }

  /** `Application::ready_document`. */
  function ShownDocument(v: Tabs): Option<ReadyDocument> {
    var at := ActiveAt(v);
    if at == |v.tabs| then None else LastReady(v.tabs[at].document)
  }

  // What every operation keeps

  predicate DistinctIds(tabs: seq<Tab>) {
    forall i, j :: 0 <= i < j < |tabs| ==> tabs[i].id != tabs[j].id
  }

  predicate DistinctPaths(tabs: seq<Tab>) {
    forall i, j :: 0 <= i < j < |tabs| && tabs[i].path.Some? ==> tabs[i].path != tabs[j].path
  }

  /**
   * At most sixteen tabs with distinct numbers and paths, one of them active if there is any; a tab without a
   * path is blank.
   */
  predicate Sound(v: Tabs) {
    && |v.tabs| <= MAX_OPEN_TABS && v.nextId <= U64_MAX
    && DistinctIds(v.tabs) && DistinctPaths(v.tabs)
    && (forall i :: 0 <= i < |v.tabs| ==> 1 <= v.tabs[i].id <= v.nextId)
    && (v.active.Some? <==> v.tabs != [])
    && (v.active.Some? ==> ActiveAt(v) < |v.tabs|)
    && (forall i :: 0 <= i < |v.tabs| && v.tabs[i].path == None ==> Blank(v.tabs[i].document))
  }

  datatype Op =
    | DoOpenPath(path: Path)
    | DoNewEmpty
    | DoActivate(tab: TabId)
    | DoClose(tab: TabId)
    | DoBeginOpen(id: DocumentId, path: Path, startedAt: Instant)
    | DoOpened(id: DocumentId, rawPageCount: nat, maxPageCount: nat)
    | DoRequirePassword(id: DocumentId)
    | DoFail(id: DocumentId)
    | DoCancelOpen(id: DocumentId)
    | DoFailActivePath(path: Path)

  function Apply(v: Tabs, op: Op): Tabs {
    match op
    case DoOpenPath(path) => OpenPath(v, path).0
    case DoNewEmpty => if MayAdd(v) then Added(v, None) else v
    case DoActivate(tab) => if FindTab(v.tabs, tab) < |v.tabs| then v.(active := Some(tab)) else v
    case DoClose(tab) => Closed(v, tab)
    case DoBeginOpen(id, path, startedAt) => BegunOpen(v, id, path, startedAt)
    case DoOpened(id, raw, max) => OpenedStep(v, id, raw, max).0
    case DoRequirePassword(id) => PasswordAsked(v, id)
    case DoFail(id) => OpenFailed(v, id)
    case DoCancelOpen(id) => OpenCancelled(v, id)
    case DoFailActivePath(path) => ActivePathFailed(v, path)
  }

  function Run(v: Tabs, ops: seq<Op>): Tabs {
    if ops == [] then v else Apply(Run(v, ops[..|ops| - 1]), ops[|ops| - 1])
  }

  const NO_TABS := Tabs([], None, 0)

  lemma ActiveIsFound(v: Tabs, at: nat)
    requires at < |v.tabs| && v.active == Some(v.tabs[at].id) && DistinctIds(v.tabs)
    ensures ActiveAt(v) == at
  {
    var found := FindTab(v.tabs, v.tabs[at].id);
    assert found <= at;
  }

  lemma WithDocumentIsSound(v: Tabs, at: nat, document: Option<DocumentState>)
    requires Sound(v) && at < |v.tabs|
    requires v.tabs[at].path == None ==> Blank(document)
    ensures Sound(WithDocument(v, at, document))
  {
    var w := WithDocument(v, at, document);
    assert forall i :: 0 <= i < |v.tabs| ==> w.tabs[i].id == v.tabs[i].id && w.tabs[i].path == v.tabs[i].path;
    if v.active.Some? {
      ActiveIsFound(w, ActiveAt(v));
    }
    hide Blank, FindTab;
  }

  lemma AddedIsSound(v: Tabs, path: Option<Path>)
    requires Sound(v) && MayAdd(v) && (path.Some? ==> FindPath(v.tabs, path.value) == |v.tabs|)
    ensures Sound(Added(v, path))
  {
    var w := Added(v, path);
    assert forall i :: 0 <= i < |v.tabs| ==> w.tabs[i] == v.tabs[i];
    ActiveIsFound(w, |v.tabs|);
    hide FindTab, FindPath;
  }

  lemma OpenPathIsSound(v: Tabs, path: Path)
    requires Sound(v)
    ensures Sound(OpenPath(v, path).0)
  {
    var (at, here) := (FindPath(v.tabs, path), ActiveAt(v));
    if at < |v.tabs| {
      ActiveIsFound(v.(active := Some(v.tabs[at].id)), at);
    } else if here < |v.tabs| && v.tabs[here].path == None {
      var w := OpenPath(v, path).0;
      assert forall i :: 0 <= i < |v.tabs| ==> w.tabs[i].id == v.tabs[i].id;
      ActiveIsFound(w, here);
    } else if MayAdd(v) {
      AddedIsSound(v, Some(path));
    }
    hide FindTab, FindPath;
  }

  lemma RemovedAt(tabs: seq<Tab>, at: nat, i: nat)
    requires at < |tabs| && i < |tabs| - 1
    ensures Removed(tabs, at)[i] == tabs[if i < at then i else i + 1]
  {}

  lemma RemovedKeeps(tabs: seq<Tab>, at: nat)
    requires at < |tabs| && DistinctIds(tabs) && DistinctPaths(tabs)
    ensures DistinctIds(Removed(tabs, at)) && DistinctPaths(Removed(tabs, at))
    ensures forall tab :: tab in Removed(tabs, at) ==> tab in tabs
  {
    var rest := Removed(tabs, at);
    forall i | 0 <= i < |rest| ensures rest[i] == tabs[if i < at then i else i + 1] { RemovedAt(tabs, at, i); }
    hide Removed;
  }

  lemma ClosedActive(v: Tabs, id: TabId, at: nat)
    requires Sound(v) && at < |v.tabs| && at == FindTab(v.tabs, id)
    ensures var w := Closed(v, id);
            w.active.Some? <==> w.tabs != []
    ensures var w := Closed(v, id); w.active.Some? ==> ActiveAt(w) < |w.tabs|
  {
    var w := Closed(v, id);
    RemovedKeeps(v.tabs, at);
    if v.active == Some(id) {
      hide FindTab, Removed, Sound, DistinctIds, DistinctPaths;
      if w.tabs != [] { ActiveIsFound(w, if at < |w.tabs| then at else at - 1); }
    } else {
      var here := ActiveAt(v);
      var moved := if here < at then here else here - 1;
      assert here != at;
      RemovedAt(v.tabs, at, moved);
      hide FindTab, Removed, DistinctIds, DistinctPaths;
      ActiveIsFound(w, moved);
    }
  }

  lemma ClosedIsSound(v: Tabs, id: TabId)
    requires Sound(v)
    ensures Sound(Closed(v, id))
  {
    var at := FindTab(v.tabs, id);
    if at < |v.tabs| {
      var w := Closed(v, id);
      RemovedKeeps(v.tabs, at);
      ClosedActive(v, id, at);
      assert |w.tabs| == |v.tabs| - 1;
      hide FindTab, Blank, Removed, DistinctIds, DistinctPaths;
      forall i | 0 <= i < |w.tabs| ensures w.tabs[i] in v.tabs {}
    }
  }

  /** The tabs in which an open starts, after the tab for the path was found or made. */
  function TabsForOpen(v: Tabs, path: Path): Tabs {
    var here := ActiveAt(v);
    if here < |v.tabs| && v.tabs[here].path == Some(path) then v else OpenPath(v, path).0
  }

  lemma TabForOpenHasPath(v: Tabs, path: Path)
    requires Sound(v)
    ensures var w := TabsForOpen(v, path);
            Sound(w) && (ActiveAt(w) < |w.tabs| ==> w.tabs[ActiveAt(w)].path.Some?)
  {
    OpenPathIsSound(v, path);
    var w := TabsForOpen(v, path);
    var (found, here) := (FindPath(v.tabs, path), ActiveAt(v));
    if here < |v.tabs| && v.tabs[here].path == Some(path) {
    } else if found < |v.tabs| {
      ActiveIsFound(w, found);
    } else if here < |v.tabs| && v.tabs[here].path == None {
      assert w.tabs[here].id == v.tabs[here].id;
      ActiveIsFound(w, here);
    } else if MayAdd(v) {
      ActiveIsFound(w, |v.tabs|);
    }
    hide FindTab, FindPath, Blank;
  }

  lemma BeginOpenIsSound(v: Tabs, id: DocumentId, path: Path, startedAt: Instant)
    requires Sound(v)
    ensures Sound(BegunOpen(v, id, path, startedAt))
  {
    TabForOpenHasPath(v, path);
    var w := TabsForOpen(v, path);
    var at := ActiveAt(w);
    hide Sound, OpenPath;
    if at < |w.tabs| { WithDocumentIsSound(w, at, Some(Opening(id, path, startedAt, LastReady(w.tabs[at].document)))); }
  }

  /** The operations on a document that is waited for. */
  predicate OnPending(op: Op) {
    op.DoOpened? || op.DoRequirePassword? || op.DoFail? || op.DoCancelOpen?
  }

  lemma PendingOpIsSound(v: Tabs, op: Op)
    requires Sound(v) && OnPending(op)
    ensures Sound(Apply(v, op))
  {
    var at := FindPending(v.tabs, op.id);
    if at < |v.tabs| {
      assert v.tabs[at].path.Some?;
      var w := Apply(v, op);
      assert w == WithDocument(v, at, w.tabs[at].document);
      WithDocumentIsSound(v, at, w.tabs[at].document);
    }
    hide Sound;
  }

  lemma ApplyIsSound(v: Tabs, op: Op)
    requires Sound(v)
    ensures Sound(Apply(v, op))
  {
    match op {
      case DoOpenPath(path) => OpenPathIsSound(v, path);
      case DoNewEmpty => if MayAdd(v) { AddedIsSound(v, None); }
      case DoActivate(tab) =>
        var at := FindTab(v.tabs, tab);
        if at < |v.tabs| { ActiveIsFound(v.(active := Some(tab)), at); }
      case DoClose(tab) => ClosedIsSound(v, tab);
      case DoBeginOpen(id, path, startedAt) => BeginOpenIsSound(v, id, path, startedAt);
      case DoFailActivePath(path) =>
        var at := ActiveAt(v);
        if at < |v.tabs| { WithDocumentIsSound(v, at, Some(FailedToOpen(path, None))); }
      case _ => PendingOpIsSound(v, op);
    }
    hide OpenPath, Closed, BegunOpen, Added;
  }

  // What becomes of the last ready document of a tab

  /** What a tab shows or falls back on; nothing for a tab that is not there. */
  function Shows(v: Tabs, tab: TabId): Option<ReadyDocument> {
    var at := FindTab(v.tabs, tab);
    if at == |v.tabs| then None else LastReady(v.tabs[at].document)
  }

  predicate IsOpen(v: Tabs, tab: TabId) {
    FindTab(v.tabs, tab) < |v.tabs|
  }

  /** The tab whose open this operation completes with a valid page count. */
  predicate Completes(v: Tabs, op: Op, tab: TabId) {
    && op.DoOpened? && 0 < op.rawPageCount <= op.maxPageCount
    && var at := FindPending(v.tabs, op.id); at < |v.tabs| && v.tabs[at].id == tab
  }

  /** The operation gives up the document of this tab because its file is gone. */
  predicate GivesUp(v: Tabs, op: Op, tab: TabId) {
    op.DoFailActivePath? && v.active == Some(tab)
  }

  lemma FindTabIs(tabs: seq<Tab>, at: nat)
    requires at < |tabs| && DistinctIds(tabs)
    ensures FindTab(tabs, tabs[at].id) == at
  {
    var found := FindTab(tabs, tabs[at].id);
    assert found <= at;
  }

  lemma FindTabSame(tabs: seq<Tab>, other: seq<Tab>, tab: TabId)
    requires |tabs| <= |other| && forall i :: 0 <= i < |tabs| ==> tabs[i].id == other[i].id
    ensures FindTab(tabs, tab) < |tabs| ==> FindTab(other, tab) == FindTab(tabs, tab)
    ensures |tabs| == |other| ==> FindTab(other, tab) == FindTab(tabs, tab)
  {
    var (a, b) := (FindTab(tabs, tab), FindTab(other, tab));
    assert a < |tabs| ==> other[a].id == tab;
    assert b < |tabs| ==> tabs[b].id == other[b].id;
  }

  lemma WithDocumentShows(v: Tabs, at: nat, document: Option<DocumentState>, tab: TabId)
    requires at < |v.tabs| && DistinctIds(v.tabs)
    ensures var w := WithDocument(v, at, document);
            && IsOpen(w, tab) == IsOpen(v, tab)
            && Shows(w, tab) == if v.tabs[at].id == tab then LastReady(document) else Shows(v, tab)
  {
    var w := WithDocument(v, at, document);
    FindTabSame(v.tabs, w.tabs, tab);
    FindTabIs(v.tabs, at);
    hide LastReady, FindTab;
  }

  lemma OpenPathShows(v: Tabs, path: Path, tab: TabId)
    requires Sound(v) && IsOpen(v, tab)
    ensures var w := OpenPath(v, path).0; IsOpen(w, tab) && Shows(w, tab) == Shows(v, tab)
  {
    var (found, here, w) := (FindPath(v.tabs, path), ActiveAt(v), OpenPath(v, path).0);
    if found < |v.tabs| {
    } else if here < |v.tabs| && v.tabs[here].path == None {
      FindTabSame(v.tabs, w.tabs, tab);
    } else if MayAdd(v) {
      assert forall i :: 0 <= i < |v.tabs| ==> w.tabs[i] == v.tabs[i];
      FindTabSame(v.tabs, w.tabs, tab);
    }
    hide FindTab, FindPath;
  }

  lemma ClosedShows(v: Tabs, id: TabId, tab: TabId)
    requires Sound(v) && IsOpen(v, tab) && tab != id
    ensures var w := Closed(v, id); IsOpen(w, tab) && Shows(w, tab) == Shows(v, tab)
  {
    var (at, w, here) := (FindTab(v.tabs, id), Closed(v, id), FindTab(v.tabs, tab));
    if at < |v.tabs| {
      var moved := if here < at then here else here - 1;
      RemovedAt(v.tabs, at, moved);
      RemovedKeeps(v.tabs, at);
      hide FindTab, Removed, DistinctIds, DistinctPaths, LastReady;
      FindTabIs(w.tabs, moved);
    }
  }

  /** A closed tab is gone. */
  lemma ClosedIsGone(v: Tabs, id: TabId)
    requires Sound(v)
    ensures !IsOpen(Closed(v, id), id)
  {
    var (at, w) := (FindTab(v.tabs, id), Closed(v, id));
    if at < |v.tabs| {
      var found := FindTab(w.tabs, id);
      if found < |w.tabs| { RemovedAt(v.tabs, at, found); }
      hide FindTab, Removed, DistinctPaths;
    }
  }

  /**
   * A tab keeps the document it shows through every operation, except that a completed open puts
   * the new document in its place and a vanished file leaves nothing.
   */
  lemma LastReadyIsKept(v: Tabs, op: Op, tab: TabId)
    requires Sound(v) && IsOpen(v, tab) && op != DoClose(tab)
    ensures IsOpen(Apply(v, op), tab)
    ensures Completes(v, op, tab) ==>
              var pending := v.tabs[FindPending(v.tabs, op.id)].document.value;
              Shows(Apply(v, op), tab) == Some(ReadyDocument(op.id, pending.path, op.rawPageCount, pending.startedAt))
    ensures GivesUp(v, op, tab) ==> Shows(Apply(v, op), tab) == None
    ensures !Completes(v, op, tab) && !GivesUp(v, op, tab) ==> Shows(Apply(v, op), tab) == Shows(v, tab)
  {
    match op {
      case DoOpenPath(path) => OpenPathShows(v, path, tab);
      case DoNewEmpty =>
        if MayAdd(v) {
          var w := Added(v, None);
          assert forall i :: 0 <= i < |v.tabs| ==> w.tabs[i] == v.tabs[i];
          FindTabSame(v.tabs, w.tabs, tab);
        }
      case DoActivate(_) =>
      case DoClose(other) => ClosedShows(v, other, tab);
      case DoBeginOpen(id, path, startedAt) => BeginOpenShows(v, id, path, startedAt, tab);
      case DoFailActivePath(path) =>
        var at := ActiveAt(v);
        if at < |v.tabs| { WithDocumentShows(v, at, Some(FailedToOpen(path, None)), tab); }
      case _ => PendingOpShows(v, op, tab);
    }
    hide OpenPath, Closed, BegunOpen, FindTab, FindPath, LastReady;
  }

  lemma BeginOpenShows(v: Tabs, id: DocumentId, path: Path, startedAt: Instant, tab: TabId)
    requires Sound(v) && IsOpen(v, tab)
    ensures var w := BegunOpen(v, id, path, startedAt); IsOpen(w, tab) && Shows(w, tab) == Shows(v, tab)
  {
    TabForOpenHasPath(v, path);
    OpenPathShows(v, path, tab);
    var w := TabsForOpen(v, path);
    var at := ActiveAt(w);
    if at < |w.tabs| {
      WithDocumentShows(w, at, Some(Opening(id, path, startedAt, LastReady(w.tabs[at].document))), tab);
      FindTabIs(w.tabs, at);
    }
    hide OpenPath, FindTab, FindPath;
  }

  lemma PendingOpShows(v: Tabs, op: Op, tab: TabId)
    requires Sound(v) && OnPending(op) && IsOpen(v, tab)
    ensures var w := Apply(v, op);
            && IsOpen(w, tab)
            && (Completes(v, op, tab) ==>
                  var pending := v.tabs[FindPending(v.tabs, op.id)].document.value;
                  Shows(w, tab) == Some(ReadyDocument(op.id, pending.path, op.rawPageCount, pending.startedAt)))
            && (!Completes(v, op, tab) ==> Shows(w, tab) == Shows(v, tab))
  {
    var at := FindPending(v.tabs, op.id);
    if at < |v.tabs| {
      var w := Apply(v, op);
      assert w == WithDocument(v, at, w.tabs[at].document);
      WithDocumentShows(v, at, w.tabs[at].document, tab);
      FindTabIs(v.tabs, at);
    }
    hide FindTab, FindPath;
  }

  /** An event for a document nobody waits for changes nothing. */
  lemma StaleEventsChangeNothing(v: Tabs, op: Op)
    requires OnPending(op) && forall i :: 0 <= i < |v.tabs| ==> !WaitsFor(v.tabs[i].document, op.id)
    ensures Apply(v, op) == v
    ensures op.DoOpened? ==> OpenedStep(v, op.id, op.rawPageCount, op.maxPageCount).1 == Stale
  {
    hide WaitsFor;
  }

  // Whole runs

  lemma {:induction false} RunIsSound(ops: seq<Op>)
    ensures Sound(Run(NO_TABS, ops))
  {
    if ops != [] {
      RunIsSound(ops[..|ops| - 1]);
      ApplyIsSound(Run(NO_TABS, ops[..|ops| - 1]), ops[|ops| - 1]);
      hide Sound, Apply;
    }
  }

  /**
   * While a tab stays open, no open completes in it and its file does not vanish, it keeps its document through
   * any run.
   */
  lemma {:induction false} LastReadySurvives(v: Tabs, ops: seq<Op>, tab: TabId)
    requires Sound(v) && IsOpen(v, tab)
    requires forall k :: 0 <= k < |ops| ==>
      var s := Run(v, ops[..k]); ops[k] != DoClose(tab) && !Completes(s, ops[k], tab) && !GivesUp(s, ops[k], tab)
    ensures Sound(Run(v, ops)) && IsOpen(Run(v, ops), tab) && Shows(Run(v, ops), tab) == Shows(v, tab)
  {
    if ops != [] {
      var n := |ops| - 1;
      var front := ops[..n];
      forall k | 0 <= k < |front|
        ensures var s := Run(v, front[..k]);
                front[k] != DoClose(tab) && !Completes(s, front[k], tab) && !GivesUp(s, front[k], tab)
      {
        assert front[..k] == ops[..k];
      }
      LastReadySurvives(v, front, tab);
      ApplyIsSound(Run(v, front), ops[n]);
      LastReadyIsKept(Run(v, front), ops[n], tab);
    }
    hide Sound, Apply, Completes, GivesUp, IsOpen, Shows;
  }

  /** Tab numbers are given out once: what opens anew is above every number so far. */
  lemma NumbersAreNotReused(v: Tabs, op: Op, tab: TabId)
    requires Sound(v) && !IsOpen(v, tab) && tab <= v.nextId
    ensures !IsOpen(Apply(v, op), tab) && v.nextId <= Apply(v, op).nextId
  {
    var w := Apply(v, op);
    assert forall i :: 0 <= i < |w.tabs| ==>
             w.tabs[i].id == v.nextId + 1 || exists j :: 0 <= j < |v.tabs| && v.tabs[j].id == w.tabs[i].id by {
      TabsComeFrom(v, op);
    }
    hide Apply, FindTab;
  }

  lemma TabsComeFrom(v: Tabs, op: Op)
    ensures var w := Apply(v, op);
            && v.nextId <= w.nextId
            && forall i :: 0 <= i < |w.tabs| ==>
                 w.tabs[i].id == v.nextId + 1 || exists j :: 0 <= j < |v.tabs| && v.tabs[j].id == w.tabs[i].id
  {
    hide FindTab, FindPath, FindPending, LastReady, ActiveAt;
    if op.DoClose? {
      var at := FindTab(v.tabs, op.tab);
      if at < |v.tabs| {
        forall i | 0 <= i < |v.tabs| - 1 ensures Removed(v.tabs, at)[i]
          == v.tabs[if i < at then i else i + 1] { RemovedAt(v.tabs, at, i); }
        hide Removed;
      }
    }
  }

  lemma {:induction false} AbsentStaysAbsent(v: Tabs, ops: seq<Op>, tab: TabId)
    requires Sound(v) && !IsOpen(v, tab) && tab <= v.nextId
    ensures Sound(Run(v, ops)) && !IsOpen(Run(v, ops), tab) && v.nextId <= Run(v, ops).nextId
  {
    if ops != [] {
      var front := ops[..|ops| - 1];
      AbsentStaysAbsent(v, front, tab);
      ApplyIsSound(Run(v, front), ops[|ops| - 1]);
      NumbersAreNotReused(Run(v, front), ops[|ops| - 1], tab);
    }
    hide Sound, Apply, IsOpen;
  }

  /** The number of a tab that is closed is never the number of an open tab again. */
  lemma ClosedStaysClosed(v: Tabs, tab: TabId, ops: seq<Op>)
    requires Sound(v) && IsOpen(v, tab)
    ensures !IsOpen(Run(Apply(v, DoClose(tab)), ops), tab)
  {
    var w := Apply(v, DoClose(tab));
    ClosedIsGone(v, tab);
    ApplyIsSound(v, DoClose(tab));
    OpenIsNumbered(v, tab);
    hide Sound, IsOpen, Run;
    AbsentStaysAbsent(w, ops, tab);
  }

  lemma OpenIsNumbered(v: Tabs, tab: TabId)
    requires Sound(v) && IsOpen(v, tab)
    ensures tab <= v.nextId && v.nextId <= Apply(v, DoClose(tab)).nextId
  {
    hide DistinctPaths, Removed;
  }

  /** All tabs but one are the same, and that one differs in its document only. */
  predicate OnlyDocumentAt(v: Tabs, w: Tabs, at: nat) {
    && at < |v.tabs| == |w.tabs| && w.active == v.active && w.nextId == v.nextId
    && w.tabs == v.tabs[at := v.tabs[at].(document := w.tabs[at].document)]
  }

  /** The tab is the first that waits for the document. */
  predicate FirstWaiting(v: Tabs, id: DocumentId, at: nat) {
    && at < |v.tabs| && WaitsFor(v.tabs[at].document, id)
    && forall i :: 0 <= i < at ==> !WaitsFor(v.tabs[i].document, id)
  }

  /** A tab asked for a password still waits for the same document, with the same one to fall back on. */
  lemma AskedStillWaits(v: Tabs, id: DocumentId, at: nat)
    requires FirstWaiting(v, id, at)
    ensures var (w, pending) := (Apply(v, DoRequirePassword(id)), v.tabs[at].document.value);
            && OnlyDocumentAt(v, w, at)
            && w.tabs[at].document
               == Some(DocumentState.PasswordRequired(id, pending.path, pending.startedAt, pending.active))
  {
    var found := FindPending(v.tabs, id);
  }

  /** The answer to a completed open: stale if no tab waits for it, else invalid or the document that is now ready. */
  lemma OpenedTells(v: Tabs, id: DocumentId, rawPageCount: nat, maxPageCount: nat)
    ensures var r := OpenedStep(v, id, rawPageCount, maxPageCount).1;
            && (r == Stale <==> forall i :: 0 <= i < |v.tabs| ==> !WaitsFor(v.tabs[i].document, id))
            && (r == InvalidPageCount <==> r != Stale && !(1 <= rawPageCount <= maxPageCount))
            && (r.Opened? ==> exists at: nat ::
                  && FirstWaiting(v, id, at) && r.document.id == id && r.document.pageCount == rawPageCount
                  && r.document.path == v.tabs[at].document.value.path)
  {
    var found := FindPending(v.tabs, id);
    if found < |v.tabs| { assert FirstWaiting(v, id, found); }
  }

  /** An open that fails is over, and the tab falls back on what it showed before. */
  lemma FailedFallsBack(v: Tabs, id: DocumentId, at: nat)
    requires FirstWaiting(v, id, at)
    ensures var (w, pending) := (Apply(v, DoFail(id)), v.tabs[at].document.value);
            && OnlyDocumentAt(v, w, at)
            && w.tabs[at].document == Some(FailedToOpen(pending.path, pending.active))
  {
    var found := FindPending(v.tabs, id);
  }

  /** An open tab that is activated is the active one, and nothing else changes; an unknown one changes nothing. */
  lemma ActivatedIsActive(v: Tabs, tab: TabId)
    ensures IsOpen(v, tab) ==> Apply(v, DoActivate(tab)) == Tabs(v.tabs, Some(tab), v.nextId)
    ensures !IsOpen(v, tab) ==> Apply(v, DoActivate(tab)) == v
  {}

  /** A new empty tab comes last, is active and has a new number, unless there are sixteen. */
  lemma NewTabIsActive(v: Tabs)
    requires Sound(v) && v.nextId < U64_MAX
    ensures var w := Apply(v, DoNewEmpty);
            if |v.tabs| == 16 then w == v
            else
              && w.tabs == v.tabs + [Tab(v.nextId + 1, None, None)] && w.active == Some(v.nextId + 1)
              && !IsOpen(v, v.nextId + 1) && w.nextId == v.nextId + 1
  {}

  /** The document a vanished file leaves in the active tab. */
  lemma VanishedLeavesNothing(v: Tabs, path: Path)
    requires Sound(v) && v.active.Some?
    ensures exists at: nat ::
              && OnlyDocumentAt(v, Apply(v, DoFailActivePath(path)), at) && v.tabs[at].id == v.active.value
              && Apply(v, DoFailActivePath(path)).tabs[at].document == Some(FailedToOpen(path, None))
  {
    var at := ActiveAt(v);
    assert OnlyDocumentAt(v, Apply(v, DoFailActivePath(path)), at);
  }

  /** Cancelling an open brings back the document the tab showed before, or none. */
  lemma CancelUndoesOpen(v: Tabs, id: DocumentId, path: Path, startedAt: Instant)
    requires Sound(v) && forall i :: 0 <= i < |v.tabs| ==> !WaitsFor(v.tabs[i].document, id)
    ensures var w := TabsForOpen(v, path);
            var at := ActiveAt(w);
            var back := OpenCancelled(BegunOpen(v, id, path, startedAt), id);
            if at == |w.tabs| then back == w
            else
              var shown := LastReady(w.tabs[at].document);
              back == WithDocument(w, at, if shown.Some? then Some(Ready(shown.value)) else None)
  {
    var w := TabsForOpen(v, path);
    var at := ActiveAt(w);
    OpenPathWaitsForNothing(v, path, id);
    assert forall i :: 0 <= i < |w.tabs| ==> !WaitsFor(w.tabs[i].document, id);
    if at < |w.tabs| {
      var begun := BegunOpen(v, id, path, startedAt);
      assert begun == WithDocument(w, at, Some(Opening(id, path, startedAt, LastReady(w.tabs[at].document))));
      assert WaitsFor(begun.tabs[at].document, id);
      hide OpenPath, ActiveAt, BegunOpen, TabsForOpen;
      assert FindPending(begun.tabs, id) == at;
      assert begun.tabs[at := w.tabs[at].(document := None)] == w.tabs[at := w.tabs[at].(document := None)];
      var shown := LastReady(w.tabs[at].document);
      var document := if shown.Some? then Some(Ready(shown.value)) else None;
      assert begun.tabs[at := begun.tabs[at].(document := document)] == w.tabs[at := w.tabs[at].(document := document)];
    } else {
      NothingPending(w, id);
    }
  }

  lemma NothingPending(v: Tabs, id: DocumentId)
    requires forall i :: 0 <= i < |v.tabs| ==> !WaitsFor(v.tabs[i].document, id)
    ensures OpenCancelled(v, id) == v
  {
    hide WaitsFor;
  }

  lemma OpenPathWaitsForNothing(v: Tabs, path: Path, id: DocumentId)
    requires forall i :: 0 <= i < |v.tabs| ==> !WaitsFor(v.tabs[i].document, id)
    ensures var w := OpenPath(v, path).0; forall i :: 0 <= i < |w.tabs| ==> !WaitsFor(w.tabs[i].document, id)
  {
    hide FindTab, FindPath;
  }

  // What opening and closing mean

  /** Some tab has the path. */
  ghost predicate HasPath(v: Tabs, path: Path) {
    exists i :: 0 <= i < |v.tabs| && v.tabs[i].path == Some(path)
  }

  predicate ActiveIsEmpty(v: Tabs) {
    ActiveAt(v) < |v.tabs| && v.tabs[ActiveAt(v)].path == None
  }

  /**
   * Opening a path fails only if no tab has it, the active tab is taken and no tab can be added.
   * Otherwise the active tab has the path afterwards, and a tab is added only if there was none for it.
   */
  lemma OpenFindsOrAdds(v: Tabs, path: Path)
    requires Sound(v)
    ensures var (w, r) := OpenPath(v, path);
            && (r == Full <==> !HasPath(v, path) && !ActiveIsEmpty(v) && !MayAdd(v))
            && (r == Full ==> w == v)
            && (r != Full ==>
                  ActiveAt(w) < |w.tabs| && w.tabs[ActiveAt(w)].path == Some(path) && w.active == Some(r.id))
            && (r.Created? <==> !HasPath(v, path) && !ActiveIsEmpty(v) && MayAdd(v))
            && |w.tabs| == |v.tabs| + (if r.Created? then 1 else 0)
  {
    var (found, here) := (FindPath(v.tabs, path), ActiveAt(v));
    var w := OpenPath(v, path).0;
    assert HasPath(v, path) <==> found < |v.tabs|;
    if found < |v.tabs| {
      ActiveIsFound(w, found);
    } else if here < |v.tabs| && v.tabs[here].path == None {
      assert w.tabs[here].id == v.tabs[here].id;
      OpenPathIsSound(v, path);
      ActiveIsFound(w, here);
    } else if MayAdd(v) {
      AddedIsSound(v, Some(path));
      ActiveIsFound(w, |v.tabs|);
    }
    hide FindTab, FindPath, Sound, HasPath;
  }

  /**
   * Closing the active tab activates the tab to its right, for the last tab the one to its left; closing another
   * tab changes nothing about it.
   */
  lemma CloseActivatesNeighbour(v: Tabs, at: nat)
    requires Sound(v) && at < |v.tabs|
    ensures var w := Closed(v, v.tabs[at].id);
            && |w.tabs| == |v.tabs| - 1
            && w.active == if v.active != Some(v.tabs[at].id) then v.active
                           else if at + 1 < |v.tabs| then Some(v.tabs[at + 1].id)
                           else if at > 0 then Some(v.tabs[at - 1].id)
                           else None
  {
    FindTabIs(v.tabs, at);
    if at + 1 < |v.tabs| { RemovedAt(v.tabs, at, at); }
    if at > 0 { RemovedAt(v.tabs, at, at - 1); }
    assert |Removed(v.tabs, at)| == |v.tabs| - 1;
    hide FindTab, Removed, Sound;
  }

  lemma WithDocumentActive(u: Tabs, at: nat, document: Option<DocumentState>)
    requires at < |u.tabs| && at == ActiveAt(u) && DistinctIds(u.tabs)
    ensures ActiveAt(WithDocument(u, at, document)) == at
  {
    ActiveIsFound(WithDocument(u, at, document), at);
    hide FindTab;
  }

  /**
   * A begun open waits in the active tab whatever became of its path; that tab has the path unless the
   * tab set had no place for it.
   */
  lemma BegunOpenWaits(v: Tabs, id: DocumentId, path: Path, startedAt: Instant)
    requires Sound(v)
    ensures var w := BegunOpen(v, id, path, startedAt);
            var at := ActiveAt(w);
            at < |w.tabs| ==>
              && WaitsFor(w.tabs[at].document, id) && w.tabs[at].document.value.path == path
              && (HasPath(v, path) || ActiveIsEmpty(v) || MayAdd(v) ==> w.tabs[at].path == Some(path))
    ensures v.tabs != [] || MayAdd(v) ==> var w := BegunOpen(v, id, path, startedAt); ActiveAt(w) < |w.tabs|
  {
    TabForOpenHasPath(v, path);
    OpenFindsOrAdds(v, path);
    var u := TabsForOpen(v, path);
    var at := ActiveAt(u);
    hide FindTab, FindPath, OpenPath, HasPath, ActiveAt;
    if at < |u.tabs| {
      WithDocumentActive(u, at, Some(Opening(id, path, startedAt, LastReady(u.tabs[at].document))));
    }
  }

  // The mutable tab set and its controller

  class TabSet {
    var tabs: seq<Tab>
    var active: Option<TabId>
    var nextId: nat

    ghost function Value(): Tabs
      reads this
    {
      Tabs(tabs, active, nextId)
    }

    constructor ()
      ensures Value() == NO_TABS && Sound(Value())
    {
      tabs, active, nextId := [], None, 0;
    }

    method FindActive() returns (at: nat)
      ensures at == ActiveAt(Value())
    {
      at := |tabs|;
      if active.Some? {
        at := FindTab(tabs, active.value);
      }
    }

    method NextTabId() returns (id: Option<TabId>)
      modifies this`nextId
      ensures id == if old(nextId) < U64_MAX then Some(old(nextId) + 1) else None
      ensures nextId == if id.Some? then id.value else old(nextId)
    {
      if nextId >= U64_MAX {
        return None;
      }
      nextId := nextId + 1;
      return Some(nextId);
    }

    method Open(path: Path) returns (r: OpenTab)
      modifies this
      ensures (Value(), r) == OpenPath(old(Value()), path)
    {
      var existing := FindPath(tabs, path);
      if existing < |tabs| {
        active := Some(tabs[existing].id);
        return Existing(tabs[existing].id);
      }
      var here := FindActive();
      if here < |tabs| && tabs[here].path == None {
        tabs := tabs[here := tabs[here].(path := Some(path), document := None)];
        return Existing(tabs[here].id);
      }
      if |tabs| >= MAX_OPEN_TABS {
        return Full;
      }
      var id := NextTabId();
      if id == None {
        return Full;
      }
      tabs := tabs + [Tab(id.value, Some(path), None)];
      active := id;
      return Created(id.value);
    }

    method NewEmpty() returns (r: Option<TabId>)
      modifies this
      ensures Value() == Apply(old(Value()), DoNewEmpty)
      ensures r == if MayAdd(old(Value())) then Some(old(nextId) + 1) else None
    {
      if |tabs| >= MAX_OPEN_TABS {
        return None;
      }
      r := NextTabId();
      if r == None {
        return;
      }
      tabs := tabs + [Tab(r.value, None, None)];
      active := r;
    }

    method Activate(id: TabId) returns (found: bool)
      modifies this
      ensures Value() == Apply(old(Value()), DoActivate(id)) && found == IsOpen(old(Value()), id)
    {
      found := FindTab(tabs, id) < |tabs|;
      if found {
        active := Some(id);
      }
    }

    method Close(id: TabId) returns (found: bool)
      modifies this
      ensures Value() == Closed(old(Value()), id) && found == IsOpen(old(Value()), id)
    {
      var index := FindTab(tabs, id);
      if index == |tabs| {
        return false;
      }
      var wasActive := active == Some(id);
      tabs := Removed(tabs, index);
      if wasActive {
        if index < |tabs| {
          active := Some(tabs[index].id);
        } else if index > 0 && index - 1 < |tabs| {
          active := Some(tabs[index - 1].id);
        } else {
          active := None;
        }
      }
      return true;
    }

    /** Replaces the document of one tab. */
    method Put(at: nat, document: Option<DocumentState>)
      requires at < |tabs|
      modifies this
      ensures Value() == WithDocument(old(Value()), at, document)
    {
      tabs := tabs[at := tabs[at].(document := document)];
    }
  }

  class DocumentController {
    static method BeginOpen(tabSet: TabSet, id: DocumentId, path: Path, startedAt: Instant)
      modifies tabSet
      ensures tabSet.Value() == BegunOpen(old(tabSet.Value()), id, path, startedAt)
    {
      var here := tabSet.FindActive();
      if !(here < |tabSet.tabs| && tabSet.tabs[here].path == Some(path)) {
        var _ := tabSet.Open(path);
      }
      var at := tabSet.FindActive();
      if at < |tabSet.tabs| {
        var active := LastReady(tabSet.tabs[at].document);
        tabSet.Put(at, Some(Opening(id, path, startedAt, active)));
      }
    }

    static method OpenSucceeded(tabSet: TabSet, id: DocumentId, rawPageCount: nat, maxPageCount: nat)
      returns (r: OpenTransition)
      modifies tabSet
      ensures (tabSet.Value(), r) == OpenedStep(old(tabSet.Value()), id, rawPageCount, maxPageCount)
    {
      var at := FindPending(tabSet.tabs, id);
      if at == |tabSet.tabs| {
        return Stale;
      }
      var pending := tabSet.tabs[at].document.value;
      if rawPageCount == 0 || rawPageCount > maxPageCount {
        tabSet.Put(at, Some(FailedToOpen(pending.path, pending.active)));
        return InvalidPageCount;
      }
      var ready := ReadyDocument(id, pending.path, rawPageCount, pending.startedAt);
      tabSet.Put(at, Some(Ready(ready)));
      return Opened(ready);
    }

    static method RequirePassword(tabSet: TabSet, id: DocumentId) returns (found: bool)
      modifies tabSet
      ensures tabSet.Value() == PasswordAsked(old(tabSet.Value()), id)
      ensures found <==> FindPending(old(tabSet.tabs), id) < |old(tabSet.tabs)|
    {
      var at := FindPending(tabSet.tabs, id);
      if at == |tabSet.tabs| {
        return false;
      }
      var pending := tabSet.tabs[at].document.value;
      tabSet.Put(at, Some(PasswordRequired(id, pending.path, pending.startedAt, pending.active)));
      return true;
    }

    static method Fail(tabSet: TabSet, id: DocumentId) returns (path: Option<Path>)
      modifies tabSet
      ensures tabSet.Value() == OpenFailed(old(tabSet.Value()), id)
      ensures path.Some? <==> FindPending(old(tabSet.tabs), id) < |old(tabSet.tabs)|
    {
      var at := FindPending(tabSet.tabs, id);
      if at == |tabSet.tabs| {
        return None;
      }
      var pending := tabSet.tabs[at].document.value;
      tabSet.Put(at, Some(FailedToOpen(pending.path, pending.active)));
      return Some(pending.path);
    }

    static method CancelOpen(tabSet: TabSet, id: DocumentId)
      modifies tabSet
      ensures tabSet.Value() == OpenCancelled(old(tabSet.Value()), id)
    {
      var at := FindPending(tabSet.tabs, id);
      if at < |tabSet.tabs| {
        var active := tabSet.tabs[at].document.value.active;
        tabSet.Put(at, if active.Some? then Some(Ready(active.value)) else None);
      }
    }

    static method FailActivePath(tabSet: TabSet, path: Path)
      modifies tabSet
      ensures tabSet.Value() == ActivePathFailed(old(tabSet.Value()), path)
    {
      var at := tabSet.FindActive();
      if at < |tabSet.tabs| {
        tabSet.Put(at, Some(FailedToOpen(path, None)));
      }
    }
  }
}
